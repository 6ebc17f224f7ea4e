/**
  The lock-free triple buffer of api/commbuffer.h: one writer, one reader, no lock.

  The writer's `put` and the reader's `get` are broken into the statements that
  an interrupt can separate.  Copying a value is not atomic, so it is one step
  per word.  A schedule is any sequence of writer and reader steps; everything
  below is stated for every schedule.
*/
module CommBuffer {

  type Value = seq<int>

  /** Where the writer is inside `put`; each name is the statement to run next. */
  datatype WriterPc =
    | WIdle
    | WCopy(word: nat)        // *writer = data, one word at a time
    | WSaveReader             // swap = reader
    | WPublish                // reader = writer
    | WTakeOld                // writer = swap
    | WTestReading            // if(readingNow)
    | WSaveWriter             // swap = writer
    | WTakeIntermediate       // writer = intermediate
    | WParkOld                // intermediate = swap
    | WCount                  // writeCnt++
    | WFlag                   // newDataAvailable = true

  /** Where the reader is inside `get`. */
  datatype ReaderPc =
    | RIdle
    | RClear                  // newDataAvailable = false
    | RRaise                  // readingNow = true
    | RPoint                  // readerTmp = reader
    | RCopy(word: nat)        // data = *readerTmp, one word at a time
    | RLower                  // readingNow = false
    | RCount                  // readCnt++

  /** What one finished `get` delivered, and what was true while it ran. */
  datatype Delivery = Delivery(
    value: Value,
    publication: int,         // the newest publication when the pointer was read
    atStart: int,             // the newest publication when `get` was called
    lapped: bool)             // did a put write a word after two others had published during the copy?

  /** The object's own fields. */
  datatype Memory = Memory(
    buffer: seq<Value>,
    writer: int,
    reader: int,
    intermediate: int,
    readingNow: bool,
    newData: bool)

  /** `put` in progress; `published` is every value put so far, after the reader buffer's initial content. */
  datatype Writer = Writer(pc: WriterPc, data: Value, swap: int, writeCnt: int, published: seq<Value>)

  /** `get` in progress; the last three fields and `deliveries` are history. */
  datatype Reader = Reader(
    pc: ReaderPc,
    readerTmp: int,
    copied: Value,
    readCnt: int,
    publication: int,
    atStart: int,
    lapped: bool,
    deliveries: seq<Delivery>)

  /** `words` is the number of words in a value. */
  datatype State = State(words: int, m: Memory, w: Writer, r: Reader) {
    /** How many puts have published since the reader last read the pointer. */
    function Since(): int {
      |w.published| - 1 - r.publication
    }
  }

  /** The content of a buffer, or nothing when the pointer is wild. */
  function At(m: Memory, pointer: int): Value {
    if 0 <= pointer < |m.buffer| then m.buffer[pointer] else []
  }

  /** The value that publication number p published. */
  function Published(s: State, p: int): Value {
    if 0 <= p < |s.w.published| then s.w.published[p] else []
  }

  /** One scheduling decision: who runs, and what a new call is asked to do. */
  datatype Choice =
    | RunWriter(item: Value)           // a new put, when idle, stores `item`
    | RunReader(only: bool)    // a new get, when idle, is get or getOnlyIfNewData

  ghost predicate ValidInit(buffer: seq<Value>) {
    |buffer| == 3 && |buffer[0]| == |buffer[1]| == |buffer[2]| > 0
  }

  function Init(buffer: seq<Value>): State
    requires |buffer| == 3
  {
    State(|buffer[1]|,
          Memory(buffer, 0, 1, 2, false, false),
          Writer(WIdle, [], 0, 0, [buffer[1]]),
          Reader(RIdle, 0, [], 0, 0, 0, false, []))
  }

  /** Is the reader between reading the pointer and having copied everything? */
  predicate Copying(s: State) {
    s.r.pc.RCopy?
  }

  function StartPut(s: State, item: Value): State {
    if |item| == s.words then s.(w := s.w.(pc := WCopy(0), data := item)) else s
  }

  function PutWord(s: State, i: int): State {
    if 0 <= s.m.writer < |s.m.buffer| && 0 <= i < |s.m.buffer[s.m.writer]| && i < |s.w.data| then
      s.(m := s.m.(buffer := s.m.buffer[s.m.writer := s.m.buffer[s.m.writer][i := s.w.data[i]]]),
         w := s.w.(pc := if i + 1 < s.words then WCopy(i + 1) else WSaveReader),
         r := s.r.(lapped := s.r.lapped || (Copying(s) && s.Since() >= 2)))
    else s
  }

  function WriterStep(s: State, item: Value): State {
    match s.w.pc
    case WIdle => StartPut(s, item)
    case WCopy(i) => PutWord(s, i)
    case WSaveReader => s.(w := s.w.(swap := s.m.reader, pc := WPublish))
    case WPublish => s.(m := s.m.(reader := s.m.writer),
                        w := s.w.(published := s.w.published + [s.w.data], pc := WTakeOld))
    case WTakeOld => s.(m := s.m.(writer := s.w.swap), w := s.w.(pc := WTestReading))
    case WTestReading => s.(w := s.w.(pc := if s.m.readingNow then WSaveWriter else WCount))
    case WSaveWriter => s.(w := s.w.(swap := s.m.writer, pc := WTakeIntermediate))
    case WTakeIntermediate => s.(m := s.m.(writer := s.m.intermediate), w := s.w.(pc := WParkOld))
    case WParkOld => s.(m := s.m.(intermediate := s.w.swap), w := s.w.(pc := WCount))
    case WCount => s.(w := s.w.(writeCnt := s.w.writeCnt + 1, pc := WFlag))
    case WFlag => s.(m := s.m.(newData := true), w := s.w.(pc := WIdle))
  }

  function GetWord(s: State, i: int): State {
    if 0 <= s.r.readerTmp < |s.m.buffer| && 0 <= i < |s.m.buffer[s.r.readerTmp]| then
      s.(r := s.r.(copied := s.r.copied + [s.m.buffer[s.r.readerTmp][i]],
                   pc := if i + 1 < s.words then RCopy(i + 1) else RLower))
    else s
  }

  function ReaderStep(s: State, only: bool): State {
    match s.r.pc
    case RIdle =>
      if only && !s.m.newData then s
      else s.(r := s.r.(pc := RClear, atStart := |s.w.published| - 1))
    case RClear => s.(m := s.m.(newData := false), r := s.r.(pc := RRaise))
    case RRaise => s.(m := s.m.(readingNow := true), r := s.r.(pc := RPoint))
    case RPoint => s.(r := s.r.(readerTmp := s.m.reader, copied := [], lapped := false,
                                publication := |s.w.published| - 1, pc := RCopy(0)))
    case RCopy(i) => GetWord(s, i)
    case RLower => s.(m := s.m.(readingNow := false), r := s.r.(pc := RCount))
    case RCount =>
      s.(r := s.r.(readCnt := s.r.readCnt + 1, pc := RIdle,
                   deliveries := s.r.deliveries
                                 + [Delivery(s.r.copied, s.r.publication, s.r.atStart, s.r.lapped)]))
  }

  function Next(s: State, c: Choice): State {
    match c
    case RunWriter(item) => WriterStep(s, item)
    case RunReader(only) => ReaderStep(s, only)
  }

  function Run(s: State, schedule: seq<Choice>): State
    decreases |schedule|
  {
    if schedule == [] then s
    else Next(Run(s, schedule[..|schedule| - 1]), schedule[|schedule| - 1])
  }

  // ------------------------------------------------------------------ invariants

  predicate Permutation(a: int, b: int, c: int) {
    0 <= a < 3 && 0 <= b < 3 && 0 <= c < 3 && a != b && b != c && a != c
  }

  /** Which buffers the pointers name; `swap` stands in while a pointer is doubled. */
  predicate PointersOk(s: State) {
    match s.w.pc
    case WPublish => Permutation(s.m.writer, s.m.reader, s.m.intermediate) && s.w.swap == s.m.reader
    case WTakeOld => s.m.reader == s.m.writer && Permutation(s.m.reader, s.w.swap, s.m.intermediate)
    case WTakeIntermediate => Permutation(s.m.writer, s.m.reader, s.m.intermediate) && s.w.swap == s.m.writer
    case WParkOld => s.m.writer == s.m.intermediate && Permutation(s.m.writer, s.m.reader, s.w.swap)
    case _ => Permutation(s.m.writer, s.m.reader, s.m.intermediate)
  }

  predicate ShapeOk(s: State) {
    && |s.m.buffer| == 3
    && s.words > 0
    && (forall b | 0 <= b < 3 :: |s.m.buffer[b]| == s.words)
    && |s.w.published| > 0
    && (forall p | 0 <= p < |s.w.published| :: |s.w.published[p]| == s.words)
    && 0 <= s.r.publication < |s.w.published|
    && 0 <= s.r.atStart < |s.w.published|
  }

  predicate WriterOk(s: State)
    requires ShapeOk(s) && PointersOk(s)
  {
    && (!s.w.pc.WIdle? ==> |s.w.data| == s.words)
    && (s.w.pc.WCopy? ==> s.w.pc.word < s.words
                          && s.m.buffer[s.m.writer][..s.w.pc.word] == s.w.data[..s.w.pc.word])
    && ((s.w.pc.WSaveReader? || s.w.pc.WPublish?) ==> s.m.buffer[s.m.writer] == s.w.data)
    && s.m.buffer[s.m.reader] == s.w.published[|s.w.published| - 1]
  }

  /** Where the buffer being copied has gone after k publications, at each point of `put`. */
  predicate ReaderBufferAt(s: State, k: int) {
    match k
    case 0 => s.r.readerTmp == s.m.reader
    case 1 =>
      (match s.w.pc
       case WTakeOld => s.w.swap == s.r.readerTmp
       case WTestReading => s.m.writer == s.r.readerTmp
       case WSaveWriter => s.m.writer == s.r.readerTmp
       case WTakeIntermediate => s.m.writer == s.r.readerTmp
       case WParkOld => s.w.swap == s.r.readerTmp
       case _ => s.m.intermediate == s.r.readerTmp)
    case 2 =>
      (match s.w.pc
       case WTakeOld => s.m.intermediate == s.r.readerTmp
       case WTestReading => s.m.intermediate == s.r.readerTmp
       case WSaveWriter => s.m.intermediate == s.r.readerTmp
       case WTakeIntermediate => s.m.intermediate == s.r.readerTmp
       case _ => s.m.writer == s.r.readerTmp && (s.w.pc.WCopy? ==> s.w.pc.word == 0)
                 && !(s.w.pc.WSaveReader? || s.w.pc.WPublish?))
    case _ => false
  }

  predicate ReaderOk(s: State)
    requires ShapeOk(s)
  {
    && (s.m.readingNow <==> s.r.pc.RPoint? || s.r.pc.RCopy? || s.r.pc.RLower?)
    && 0 <= s.r.readerTmp < 3
    && (s.r.pc.RCopy? || s.r.pc.RLower? || s.r.pc.RCount? ==> s.r.atStart <= s.r.publication)
    && (s.r.pc.RCopy? ==>
          && s.r.pc.word < s.words
          && |s.r.copied| == s.r.pc.word
          && (!s.r.lapped ==>
                && ReaderBufferAt(s, s.Since())
                && s.m.buffer[s.r.readerTmp] == s.w.published[s.r.publication]
                && s.r.copied == s.w.published[s.r.publication][..s.r.pc.word]))
    && ((s.r.pc.RLower? || s.r.pc.RCount?) ==>
          |s.r.copied| == s.words && (!s.r.lapped ==> s.r.copied == s.w.published[s.r.publication]))
  }

  /** Between publishing and raising the flag. */
  predicate Announcing(pc: WriterPc) {
    (pc.WTakeOld? || pc.WTestReading? || pc.WSaveWriter? || pc.WTakeIntermediate? || pc.WParkOld? || pc.WCount? || pc.WFlag?)
  }

  /** A lowered flag never hides a publication that the reader has not looked at. */
  predicate FlagOk(s: State) {
    !s.m.newData && !Announcing(s.w.pc) ==>
      (s.r.pc.RRaise? || s.r.pc.RPoint?) || s.Since() == 0
  }

  predicate DeliveryOk(s: State, d: Delivery) {
    && 0 <= d.atStart <= d.publication < |s.w.published|
    && |d.value| == s.words
    && (!d.lapped ==> d.value == s.w.published[d.publication])
  }

  predicate DeliveriesOk(s: State) {
    && (forall i | 0 <= i < |s.r.deliveries| :: DeliveryOk(s, s.r.deliveries[i]))
    && (forall i, j | 0 <= i < j < |s.r.deliveries| ::
          s.r.deliveries[i].publication <= s.r.deliveries[j].publication)
    && (forall i | 0 <= i < |s.r.deliveries| :: s.r.deliveries[i].publication <= s.r.publication)
  }

  predicate Inv(s: State) {
    ShapeOk(s) && PointersOk(s) && WriterOk(s) && ReaderOk(s) && FlagOk(s) && DeliveriesOk(s)
  }

  lemma WriterKeepsShape(s: State, item: Value)
    requires ShapeOk(s) && PointersOk(s) && WriterOk(s)
    ensures ShapeOk(WriterStep(s, item))
  {
    var t := WriterStep(s, item);
    if s.w.pc.WPublish? {
      assert forall p | 0 <= p < |t.w.published| :: |t.w.published[p]| == s.words;
    }
  }

  lemma WriterKeepsPointers(s: State, item: Value)
    requires PointersOk(s)
    ensures PointersOk(WriterStep(s, item))
  {
  }

  lemma WriterKeepsWriter(s: State, item: Value)
    requires ShapeOk(s) && PointersOk(s) && WriterOk(s)
    requires ShapeOk(WriterStep(s, item)) && PointersOk(WriterStep(s, item))
    ensures WriterOk(WriterStep(s, item))
  {
    var t := WriterStep(s, item);
    if s.w.pc.WCopy? {
      var i := s.w.pc.word;
      assert t.m.buffer[s.m.writer][..i + 1] == s.m.buffer[s.m.writer][..i] + [s.w.data[i]];
      assert s.w.data[..i + 1] == s.w.data[..i] + [s.w.data[i]];
      if i + 1 == s.words {
        assert t.m.buffer[s.m.writer] == t.m.buffer[s.m.writer][..i + 1];
        assert s.w.data == s.w.data[..i + 1];
      }
    }
  }

  lemma WriterKeepsReader(s: State, item: Value)
    requires ShapeOk(s) && PointersOk(s) && WriterOk(s) && ReaderOk(s)
    requires ShapeOk(WriterStep(s, item))
    ensures ReaderOk(WriterStep(s, item))
  {
  }

  lemma WriterKeepsHistory(s: State, item: Value)
    requires ShapeOk(s) && FlagOk(s) && DeliveriesOk(s)
    ensures var t := WriterStep(s, item); FlagOk(t) && DeliveriesOk(t)
  {
    var t := WriterStep(s, item);
    forall i | 0 <= i < |s.r.deliveries|
      ensures DeliveryOk(t, s.r.deliveries[i])
    {
      assert DeliveryOk(s, s.r.deliveries[i]);
    }
  }

  lemma WriterKeepsInv(s: State, item: Value)
    requires Inv(s)
    ensures Inv(WriterStep(s, item))
  {
    WriterKeepsShape(s, item);
    WriterKeepsPointers(s, item);
    WriterKeepsWriter(s, item);
    WriterKeepsReader(s, item);
    WriterKeepsHistory(s, item);
  }

  lemma ReaderKeepsReader(s: State, only: bool)
    requires ShapeOk(s) && PointersOk(s) && WriterOk(s) && ReaderOk(s)
    ensures var t := ReaderStep(s, only); ShapeOk(t) && ReaderOk(t)
  {
    if s.r.pc.RCopy? && !s.r.lapped {
      var i := s.r.pc.word;
      var v := s.w.published[s.r.publication];
      assert v[..i + 1] == v[..i] + [v[i]];
      if i + 1 == s.words {
        assert v == v[..i + 1];
      }
    }
  }

  /** The reader moves no pointer and writes no word. */
  lemma ReaderOnlyReads(s: State, only: bool)
    ensures var t := ReaderStep(s, only);
            && t.words == s.words && t.w == s.w && t.m.buffer == s.m.buffer
            && t.m.writer == s.m.writer && t.m.reader == s.m.reader && t.m.intermediate == s.m.intermediate
  {
  }

  lemma ReaderKeepsWriter(s: State, t: State)
    requires ShapeOk(s) && PointersOk(s) && WriterOk(s) && ShapeOk(t)
    requires t.words == s.words && t.w == s.w && t.m.buffer == s.m.buffer
    requires t.m.writer == s.m.writer && t.m.reader == s.m.reader && t.m.intermediate == s.m.intermediate
    ensures PointersOk(t) && WriterOk(t)
  {
  }

  lemma ReaderKeepsHistory(s: State, only: bool)
    requires ShapeOk(s) && ReaderOk(s) && FlagOk(s) && DeliveriesOk(s)
    ensures var t := ReaderStep(s, only); FlagOk(t) && DeliveriesOk(t)
  {
    var t := ReaderStep(s, only);
    forall i | 0 <= i < |s.r.deliveries|
      ensures DeliveryOk(t, s.r.deliveries[i])
    {
      assert DeliveryOk(s, s.r.deliveries[i]);
    }
  }

  lemma ReaderKeepsInv(s: State, only: bool)
    requires Inv(s)
    ensures Inv(ReaderStep(s, only))
  {
    ReaderKeepsReader(s, only);
    ReaderOnlyReads(s, only);
    ReaderKeepsWriter(s, ReaderStep(s, only));
    ReaderKeepsHistory(s, only);
  }

  lemma {:induction false} EveryRunKeepsInv(buffer: seq<Value>, schedule: seq<Choice>)
    requires ValidInit(buffer)
    ensures Inv(Run(Init(buffer), schedule))
    decreases |schedule|
  {
    if schedule != [] {
      EveryRunKeepsInv(buffer, schedule[..|schedule| - 1]);
      var s := Run(Init(buffer), schedule[..|schedule| - 1]);
      match schedule[|schedule| - 1]
      case RunWriter(item) => WriterKeepsInv(s, item);
      case RunReader(only) => ReaderKeepsInv(s, only);
    }
  }

  // ------------------------------------------------------------------ theorems

  /**
    Under every schedule, every finished get either delivered, whole, the newest value
    that was published when it read the pointer (a value at least as new as the newest one
    when get was called), or some put wrote a word after two other puts had published
    during the copy.  Successive gets never go back in time.
  */
  lemma NeverTorn(buffer: seq<Value>, schedule: seq<Choice>, i: nat)
    requires ValidInit(buffer)
    requires i < |Run(Init(buffer), schedule).r.deliveries|
    ensures var s := Run(Init(buffer), schedule);
            var d := s.r.deliveries[i];
            && 0 <= d.atStart <= d.publication < |s.w.published|
            && (d.lapped || d.value == s.w.published[d.publication])
            && (i > 0 ==> s.r.deliveries[i - 1].publication <= d.publication)
  {
    EveryRunKeepsInv(buffer, schedule);
    var s := Run(Init(buffer), schedule);
    assert DeliveryOk(s, s.r.deliveries[i]);
  }

  /** Outside the swap of a put, the three pointers name the three buffers once each. */
  lemma PointersPermute(buffer: seq<Value>, schedule: seq<Choice>)
    requires ValidInit(buffer)
    ensures var s := Run(Init(buffer), schedule);
            !(s.w.pc.WTakeOld? || s.w.pc.WParkOld?) ==> Permutation(s.m.writer, s.m.reader, s.m.intermediate)
  {
    EveryRunKeepsInv(buffer, schedule);
  }

  /**
    The bound of two publications is exact: once two puts have published during a copy and
    the writer has come to rest, the next put's very first word lands in the buffer being read.
  */
  lemma BoundIsExact(buffer: seq<Value>, schedule: seq<Choice>, item: Value)
    requires ValidInit(buffer)
    requires var s := Run(Init(buffer), schedule);
             && Copying(s) && !s.r.lapped && s.w.pc.WIdle?
             && s.Since() == 2 && |item| == s.words > 0 && |Published(s, s.r.publication)| > 0
    ensures var s := Run(Init(buffer), schedule);
            var t := WriterStep(WriterStep(s, item), item);
            && t.r.lapped
            && At(t.m, s.r.readerTmp) == [item[0]] + Published(s, s.r.publication)[1..]
  {
    EveryRunKeepsInv(buffer, schedule);
  }

  /** And no earlier put touches it: with fewer than two publications the copied buffer is never written. */
  lemma TwoPutsAreHarmless(buffer: seq<Value>, schedule: seq<Choice>, c: Choice)
    requires ValidInit(buffer)
    requires var s := Run(Init(buffer), schedule);
             Copying(s) && !s.r.lapped && s.Since() < 2
    ensures var s := Run(Init(buffer), schedule);
            At(Next(s, c).m, s.r.readerTmp) == Published(s, s.r.publication)
  {
    EveryRunKeepsInv(buffer, schedule);
  }

  /**
    getOnlyIfNewData refuses only when there is nothing to miss: with the flag down and no put
    between publishing and raising it, the reader's last look was at the newest publication.
  */
  lemma RefusalMissesNothing(buffer: seq<Value>, schedule: seq<Choice>)
    requires ValidInit(buffer)
    ensures var s := Run(Init(buffer), schedule);
            s.r.pc.RIdle? && !s.m.newData && !Announcing(s.w.pc) ==> s.Since() == 0
  {
    EveryRunKeepsInv(buffer, schedule);
  }

  // ------------------------------------------------------------------ whole calls

  /** What an undisturbed `put` leaves in the object. */
  function AfterPut(m: Memory, item: Value): Memory
    requires 0 <= m.writer < |m.buffer|
  {
    Memory(m.buffer[m.writer := item],
           if m.readingNow then m.intermediate else m.reader,
           m.writer,
           if m.readingNow then m.reader else m.intermediate,
           m.readingNow,
           true)
  }

  /** How many steps an undisturbed `put` takes. */
  function PutLength(s: State): nat {
    (if s.words > 0 then s.words else 0) + (if s.m.readingNow then 10 else 7)
  }

  function Repeat(c: Choice, n: nat): seq<Choice> {
    seq(n, _ => c)
  }

  lemma {:induction false} RunAppend(s: State, first: seq<Choice>, second: seq<Choice>)
    ensures Run(s, first + second) == Run(Run(s, first), second)
    decreases |second|
  {
    if second == [] {
      assert first + second == first;
    } else {
      var n := |second| - 1;
      assert (first + second)[..|first + second| - 1] == first + second[..n];
      RunAppend(s, first, second[..n]);
    }
  }

  lemma RunOne(s: State, c: Choice)
    ensures Run(s, [c]) == Next(s, c)
  {
    assert [c][..0] == [];
    assert Run(s, [c][..0]) == s;
  }

  lemma NextWord(item: Value, x: Value, k: nat)
    requires 0 < k <= |item| == |x|
    ensures (item[..k - 1] + x[k - 1..])[k - 1 := item[k - 1]] == item[..k] + x[k..]
  {
  }

  /** The first k words of an undisturbed copy into the writer's buffer. */
  lemma {:induction false} CopyWords(s: State, item: Value, k: nat)
    requires 0 <= s.m.writer < |s.m.buffer| && |s.m.buffer[s.m.writer]| == |item| == s.words && 0 < k <= s.words
    requires s.w.pc == WCopy(0) && s.w.data == item
    ensures var t := Run(s, Repeat(RunWriter(item), k));
            && t.words == s.words
            && t.m == s.m.(buffer := s.m.buffer[s.m.writer := item[..k] + s.m.buffer[s.m.writer][k..]])
            && t.w == s.w.(pc := if k < s.words then WCopy(k) else WSaveReader)
            && t.r == s.r.(lapped := s.r.lapped || (Copying(s) && s.Since() >= 2))
  {
    var c := RunWriter(item);
    var x := s.m.buffer[s.m.writer];
    if k == 1 {
      assert Repeat(c, 1) == [c];
      RunOne(s, c);
      assert x[0 := item[0]] == item[..1] + x[1..];
    } else {
      CopyWords(s, item, k - 1);
      var u := Run(s, Repeat(c, k - 1));
      assert Repeat(c, k)[..k - 1] == Repeat(c, k - 1);
      assert Run(s, Repeat(c, k)) == Next(u, c) == PutWord(u, k - 1);
      NextWord(item, x, k);
    }
  }

  /** A put that nobody interrupts is exactly the assignments of the source, in one go. */
  lemma UninterruptedPut(s: State, item: Value)
    requires ShapeOk(s) && PointersOk(s) && s.w.pc == WIdle && |item| == s.words
    ensures var t := Run(s, Repeat(RunWriter(item), PutLength(s)));
            && t.words == s.words
            && t.m == AfterPut(s.m, item)
            && t.w.pc == WIdle && t.w.published == s.w.published + [item] && t.w.writeCnt == s.w.writeCnt + 1
            && t.r == s.r.(lapped := s.r.lapped || (Copying(s) && s.Since() >= 2))
  {
    var c := RunWriter(item);
    var s1 := Next(s, c);
    RunOne(s, c);
    CopyWords(s1, item, s.words);
    var s2 := Run(s1, Repeat(c, s.words));
    assert item[..s.words] + s.m.buffer[s.m.writer][s.words..] == item;
    var rest := Repeat(c, PutLength(s) - 1 - s.words);
    assert Repeat(c, PutLength(s)) == [c] + (Repeat(c, s.words) + rest);
    RunAppend(s, [c], Repeat(c, s.words) + rest);
    RunAppend(s1, Repeat(c, s.words), rest);
    FinishPut(s2, item);
  }

  /** From the first pointer assignment to the test of `readingNow`. */
  lemma SwapPointers(s: State, c: Choice)
    requires s.w.pc == WSaveReader && c.RunWriter?
    ensures Run(s, Repeat(c, 4)) ==
            s.(m := s.m.(writer := s.m.reader, reader := s.m.writer),
               w := s.w.(swap := s.m.reader, published := s.w.published + [s.w.data],
                         pc := if s.m.readingNow then WSaveWriter else WCount))
  {
    Four(s, c);
    var t := Next(s, c);
    assert t == s.(w := s.w.(swap := s.m.reader, pc := WPublish));
    var u := Next(t, c);
    assert u == s.(m := s.m.(reader := s.m.writer),
                   w := s.w.(swap := s.m.reader, published := s.w.published + [s.w.data], pc := WTakeOld));
    var v := Next(u, c);
    assert v == s.(m := s.m.(writer := s.m.reader, reader := s.m.writer),
                   w := s.w.(swap := s.m.reader, published := s.w.published + [s.w.data], pc := WTestReading));
  }

  /** Exchanging the writer's buffer for the intermediate one. */
  lemma SwapIntermediate(s: State, c: Choice)
    requires s.w.pc == WSaveWriter && c.RunWriter?
    ensures Run(s, Repeat(c, 3)) ==
            s.(m := s.m.(writer := s.m.intermediate, intermediate := s.m.writer),
               w := s.w.(swap := s.m.writer, pc := WCount))
  {
    Three(s, c);
    var t := Next(s, c);
    assert t == s.(w := s.w.(swap := s.m.writer, pc := WTakeIntermediate));
    var u := Next(t, c);
    assert u == s.(m := s.m.(writer := s.m.intermediate), w := s.w.(swap := s.m.writer, pc := WParkOld));
  }

  lemma Announce(s: State, c: Choice)
    requires s.w.pc == WCount && c.RunWriter?
    ensures Run(s, Repeat(c, 2)) ==
            s.(m := s.m.(newData := true), w := s.w.(writeCnt := s.w.writeCnt + 1, pc := WIdle))
  {
    Two(s, c);
    var t := Next(s, c);
    assert t == s.(w := s.w.(writeCnt := s.w.writeCnt + 1, pc := WFlag));
  }

  /** From the first pointer assignment to the end of `put`. */
  lemma FinishPut(s: State, item: Value)
    requires s.w.pc == WSaveReader && s.w.data == item
    ensures var t := Run(s, Repeat(RunWriter(item), if s.m.readingNow then 9 else 6));
            && t.words == s.words
            && t.m == Memory(s.m.buffer, if s.m.readingNow then s.m.intermediate else s.m.reader, s.m.writer,
                             if s.m.readingNow then s.m.reader else s.m.intermediate, s.m.readingNow, true)
            && t.w.pc == WIdle && t.w.published == s.w.published + [item] && t.w.writeCnt == s.w.writeCnt + 1
            && t.r == s.r
  {
    var c := RunWriter(item);
    SwapPointers(s, c);
    var t := Run(s, Repeat(c, 4));
    if s.m.readingNow {
      SwapIntermediate(t, c);
      Announce(Run(t, Repeat(c, 3)), c);
      assert Repeat(c, 9) == Repeat(c, 4) + (Repeat(c, 3) + Repeat(c, 2));
      RunAppend(s, Repeat(c, 4), Repeat(c, 3) + Repeat(c, 2));
      RunAppend(t, Repeat(c, 3), Repeat(c, 2));
    } else {
      Announce(t, c);
      assert Repeat(c, 6) == Repeat(c, 4) + Repeat(c, 2);
      RunAppend(s, Repeat(c, 4), Repeat(c, 2));
    }
  }

  lemma Two(s: State, c: Choice)
    ensures Run(s, Repeat(c, 2)) == Next(Next(s, c), c)
  {
    assert Repeat(c, 2) == [c] + [c];
    RunOne(s, c);
    RunOne(Next(s, c), c);
    RunAppend(s, [c], [c]);
  }

  lemma Three(s: State, c: Choice)
    ensures Run(s, Repeat(c, 3)) == Next(Next(Next(s, c), c), c)
  {
    Two(s, c);
    RunOne(Next(Next(s, c), c), c);
    assert Repeat(c, 3) == Repeat(c, 2) + [c];
    RunAppend(s, Repeat(c, 2), [c]);
  }

  lemma Four(s: State, c: Choice)
    ensures Run(s, Repeat(c, 4)) == Next(Next(Next(Next(s, c), c), c), c)
  {
    Two(s, c);
    Two(Next(Next(s, c), c), c);
    assert Repeat(c, 4) == Repeat(c, 2) + Repeat(c, 2);
    RunAppend(s, Repeat(c, 2), Repeat(c, 2));
  }

  /**
    The promise that "the data will be always consistent" fails beyond the bound.  With two-word
    values, a get that has copied one word when three puts run to completion delivers the first
    word of the initial value and the second word of the third put.
  */
  lemma TornBeyondTheBound(buffer: seq<Value>, a: Value, b: Value, c: Value)
    requires ValidInit(buffer) && |buffer[1]| == |a| == |b| == |c| == 2
    ensures exists schedule :: var s := Run(Init(buffer), schedule);
              |s.r.deliveries| == 1 && s.r.deliveries[0].value == [buffer[1][0], c[1]]
  {
    var get := RunReader(false);
    var s0 := Init(buffer);
    HalfGet(buffer);
    var s1 := Run(s0, Repeat(get, 5));
    var s2 := FinishedPut(s1, a);
    var s3 := FinishedPut(s2, b);
    var s4 := FinishedPut(s3, c);
    OtherHalf(s4);
    var s5 := Run(s4, Repeat(get, 3));
    var third := Repeat(RunWriter(c), PutLength(s3)) + Repeat(get, 3);
    var second := Repeat(RunWriter(b), PutLength(s2)) + third;
    var first := Repeat(RunWriter(a), PutLength(s1)) + second;
    RunAppend(s3, Repeat(RunWriter(c), PutLength(s3)), Repeat(get, 3));
    RunAppend(s2, Repeat(RunWriter(b), PutLength(s2)), third);
    RunAppend(s1, Repeat(RunWriter(a), PutLength(s1)), second);
    RunAppend(s0, Repeat(get, 5), first);
    assert Run(s0, Repeat(get, 5) + first) == s5;
  }

  /** A get of a two-word value up to its first word. */
  lemma HalfGet(buffer: seq<Value>)
    requires ValidInit(buffer) && |buffer[1]| == 2
    ensures var s := Init(buffer);
            Run(s, Repeat(RunReader(false), 5)) ==
            s.(m := s.m.(readingNow := true), r := s.r.(pc := RCopy(1), readerTmp := 1, copied := [buffer[1][0]]))
  {
    var c := RunReader(false);
    var s := Init(buffer);
    var t := Next(Next(s, c), c);
    assert t == s.(r := s.r.(pc := RRaise));
    var u := Next(Next(t, c), c);
    assert u == s.(m := s.m.(readingNow := true), r := s.r.(pc := RCopy(0), readerTmp := 1));
    Four(s, c);
    RunOne(u, c);
    assert Repeat(c, 5) == Repeat(c, 4) + [c];
    RunAppend(s, Repeat(c, 4), [c]);
  }

  /** ... and from there to its end. */
  lemma OtherHalf(s: State)
    requires s.r.pc == RCopy(1) && s.words == 2 && s.r.readerTmp == 1
    requires |s.m.buffer| == 3 && |s.m.buffer[1]| == 2
    ensures Run(s, Repeat(RunReader(false), 3)).r.deliveries ==
            s.r.deliveries + [Delivery(s.r.copied + [s.m.buffer[1][1]], s.r.publication, s.r.atStart, s.r.lapped)]
  {
    var c := RunReader(false);
    Three(s, c);
    var t := Next(s, c);
    assert t == s.(r := s.r.(copied := s.r.copied + [s.m.buffer[1][1]], pc := RLower));
    var u := Next(t, c);
    assert u == t.(m := t.m.(readingNow := false), r := t.r.(pc := RCount));
  }

  lemma FinishedPut(s: State, item: Value) returns (t: State)
    requires ShapeOk(s) && PointersOk(s) && s.w.pc == WIdle && |item| == s.words
    ensures t == Run(s, Repeat(RunWriter(item), PutLength(s)))
    ensures ShapeOk(t) && PointersOk(t) && t.w.pc == WIdle && t.words == s.words
    ensures t.m == AfterPut(s.m, item)
    ensures t.r == s.r.(lapped := t.r.lapped)
  {
    t := Run(s, Repeat(RunWriter(item), PutLength(s)));
    UninterruptedPut(s, item);
  }

  /** The object itself, with the two calls as its threads make them. */
  class Buffer {
    var buffer: seq<Value>
    var writer: int
    var reader: int
    var intermediate: int
    var readingNow: bool
    var newData: bool
    var writeCnt: nat
    var readCnt: nat
    const words: nat

    predicate Valid()
      reads this
    {
      && |buffer| == 3 && words > 0
      && (forall b | 0 <= b < 3 :: |buffer[b]| == words)
      && Permutation(writer, reader, intermediate)
    }

    function View(): Memory
      reads this
    {
      Memory(buffer, writer, reader, intermediate, readingNow, newData)
    }

    constructor (content: seq<Value>)
      requires ValidInit(content)
      ensures Valid() && words == |content[1]| && View() == Init(content).m
      ensures writeCnt == readCnt == 0
    {
      buffer := content;
      writer, reader, intermediate := 0, 1, 2;
      readingNow, newData := false, false;
      writeCnt, readCnt := 0, 0;
      words := |content[1]|;
    }

    method Put(data: Value)
      requires Valid() && |data| == words
      modifies this
      ensures Valid() && View() == AfterPut(old(View()), data)
      ensures writeCnt == old(writeCnt) + 1 && readCnt == old(readCnt)
    {
      buffer := buffer[writer := data];
      var swap := reader;
      reader := writer;
      writer := swap;
      if readingNow {
        swap := writer;
        writer := intermediate;
        intermediate := swap;
      }
      writeCnt := writeCnt + 1;
      newData := true;
    }

    method Get() returns (data: Value)
      requires Valid()
      modifies this
      ensures Valid() && data == At(old(View()), old(reader))
      ensures View() == old(View()).(readingNow := false, newData := false)
      ensures readCnt == old(readCnt) + 1 && writeCnt == old(writeCnt)
    {
      newData := false;
      readingNow := true;
      var readerTmp := reader;
      data := buffer[readerTmp];
      readingNow := false;
      readCnt := readCnt + 1;
    }

    method GetOnlyIfNewData(current: Value) returns (ok: bool, data: Value)
      requires Valid()
      modifies this
      ensures Valid() && ok == old(newData)
      ensures writeCnt == old(writeCnt)
      ensures ok ==> data == At(old(View()), old(reader)) && View() == old(View()).(readingNow := false, newData := false)
      ensures ok ==> readCnt == old(readCnt) + 1
      ensures !ok ==> data == current && View() == old(View()) && readCnt == old(readCnt)
    {
      if newData {
        data := Get();
        return true, data;
      }
      return false, current;
    }
  }
}
