/**
  getMsg() on any stream whatever, told of the positions in the stream: words are two bytes from a MARK
  on, and a MARK that is the second byte of a word begins none.
*/
module S3PPull {
  import opened S3PCode
  import opened S3PReceivers
  import S3PPush

  /** Byte i would be the second byte of a word. */
  predicate Second(s: seq<Byte>, i: nat)
    requires i <= |s|
  {
    i > 0 && s[i - 1] == MARK && !Second(s, i - 1)
  }

  predicate IsCode(s: seq<Byte>, i: int, code: DualByte) {
    0 <= i < |s| && Second(s, i) && COMMAND + s[i] == code
  }

  /** The data that byte i completes. */
  function DataAt(s: seq<Byte>, i: nat): seq<Byte>
    requires i < |s|
  {
    if IsCode(s, i, STUFF) then [MARK] else if Second(s, i) || s[i] == MARK then [] else [s[i]]
  }

  /** The data in bytes b up to e. */
  function Content(s: seq<Byte>, b: nat, e: nat): seq<Byte>
    requires e <= |s|
    decreases e
  {
    if b >= e then [] else Content(s, b, e - 1) + DataAt(s, e - 1)
  }

  /** The BOM of the message open before byte e, or -1: the latest, if no EOM came since. */
  function BegunAt(s: seq<Byte>, e: nat): (b: int)
    requires e <= |s|
    ensures -1 <= b < e
    ensures b >= 0 ==> IsCode(s, b, BOM)
  {
    if e == 0 || IsCode(s, e - 1, EOM) then -1
    else if IsCode(s, e - 1, BOM) then e - 1
    else BegunAt(s, e - 1)
  }

  /** The message so far before byte e. */
  function Open(s: seq<Byte>, e: nat, maxLen: int): Option<seq<Byte>>
    requires e <= |s|
  {
    var b := BegunAt(s, e);
    if b < 0 then None else Some(Clip(Content(s, b + 1, e), maxLen))
  }

  /** A message ends at byte e: what came since its BOM, clipped; or a command for the application does. */
  function ReportAt(s: seq<Byte>, e: nat, maxLen: int): seq<Event>
    requires e < |s|
  {
    if IsCode(s, e, EOM) then
      (if BegunAt(s, e) < 0 then [] else [Message(Clip(Content(s, BegunAt(s, e) + 1, e), maxLen))])
    else if !Second(s, e) || IsCode(s, e, BOM) || IsCode(s, e, STUFF) then []
    else [Command(COMMAND + s[e])]
  }

  function ReportsFrom(s: seq<Byte>, p: nat, maxLen: int): seq<Event>
    requires p <= |s|
    decreases |s| - p
  {
    if p == |s| then [] else ReportAt(s, p, maxLen) + ReportsFrom(s, p + 1, maxLen)
  }

  lemma ClipAdd(m: seq<Byte>, c: Byte, maxLen: int)
    ensures Add(Some(Clip(m, maxLen)), c, maxLen) == Some(Clip(m + [c], maxLen))
  {
    if 0 < maxLen < |m| + 1 {
      assert (m + [c])[..maxLen] == m[..maxLen];
    }
  }

  /** What byte n does to the message. */
  lemma OpenNext(s: seq<Byte>, n: nat, maxLen: int)
    requires n < |s|
    ensures Open(s, n + 1, maxLen) ==
            if IsCode(s, n, EOM) then None
            else if IsCode(s, n, BOM) then Some([])
            else if DataAt(s, n) == [] then Open(s, n, maxLen)
            else Add(Open(s, n, maxLen), DataAt(s, n)[0], maxLen)
  {
    var b := BegunAt(s, n);
    if !IsCode(s, n, EOM) && !IsCode(s, n, BOM) && b >= 0 {
      assert BegunAt(s, n + 1) == b;
      var m := Content(s, b + 1, n);
      assert Content(s, b + 1, n + 1) == m + DataAt(s, n);
      if DataAt(s, n) != [] {
        assert DataAt(s, n) == [DataAt(s, n)[0]];
        ClipAdd(m, DataAt(s, n)[0], maxLen);
      } else {
        assert m + [] == m;
      }
    }
  }

  /** A data byte between two words. */
  lemma PullsData(s: seq<Byte>, p: nat, maxLen: int)
    requires p < |s| && !Second(s, p) && s[p] != MARK
    ensures Pull(s[p..], Open(s, p, maxLen), maxLen) == Pull(s[p + 1..], Open(s, p + 1, maxLen), maxLen)
    ensures ReportAt(s, p, maxLen) == [] && !Second(s, p + 1)
  {
    assert s[p..] == [s[p]] + s[p + 1..];
    S3PPush.PullData(s[p], s[p + 1..], Open(s, p, maxLen), maxLen);
    OpenNext(s, p, maxLen);
  }

  /** A word. */
  lemma PullsWord(s: seq<Byte>, p: nat, maxLen: int)
    requires p + 1 < |s| && !Second(s, p) && s[p] == MARK
    ensures Pull(s[p..], Open(s, p, maxLen), maxLen) ==
            ReportAt(s, p + 1, maxLen) + Pull(s[p + 2..], Open(s, p + 2, maxLen), maxLen)
    ensures ReportAt(s, p, maxLen) == [] && !Second(s, p + 2)
  {
    assert s[p..] == [MARK, s[p + 1]] + s[p + 2..];
    OpenNext(s, p, maxLen);
    OpenNext(s, p + 1, maxLen);
    assert Open(s, p + 1, maxLen) == Open(s, p, maxLen);
    S3PPush.PullCommand(s[p + 1], s[p + 2..], Open(s, p, maxLen), maxLen);
  }

  lemma {:induction false} PullsFrom(s: seq<Byte>, p: nat, maxLen: int)
    requires p <= |s| && !Second(s, p)
    ensures Pull(s[p..], Open(s, p, maxLen), maxLen) == ReportsFrom(s, p, maxLen)
    decreases |s| - p
  {
    if p < |s| {
      if s[p] != MARK {
        PullsData(s, p, maxLen);
        PullsFrom(s, p + 1, maxLen);
      } else if p + 1 < |s| {
        PullsWord(s, p, maxLen);
        PullsFrom(s, p + 2, maxLen);
      } else {
        assert s[p..] == [MARK];
      }
    }
  }

  /** On every stream, successive getMsg() report exactly what the positions of the words say. */
  lemma PullsWhatArrived(s: seq<Byte>, maxLen: int)
    ensures Pull(s, None, maxLen) == ReportsFrom(s, 0, maxLen)
  {
    PullsFrom(s, 0, maxLen);
    assert s[0..] == s;
  }
}
