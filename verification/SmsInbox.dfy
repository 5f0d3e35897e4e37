/** Reading the stored messages back: a +CMGL listing in PDU mode, as the modem
    prints it with unsolicited lines anywhere in between. */
module SmsInbox {
  import opened Text
  import opened AtLines
  import CallLine

  type Octet = x: int | 0 <= x < 256

  // ---------------------------------------------------------------- hex

  const HEX_DIGITS: string := "0123456789ABCDEF"

  function HexValue(c: char): Option<int> {
    if '0' <= c <= '9' then Some((c as int) - ('0' as int))
    else if 'A' <= c <= 'F' then Some((c as int) - ('A' as int) + 10)
    else if 'a' <= c <= 'f' then Some((c as int) - ('a' as int) + 10)
    else None
  }

  function HexText(bytes: seq<Octet>): string {
    if bytes == [] then "" else [HEX_DIGITS[bytes[0] / 16], HEX_DIGITS[bytes[0] % 16]] + HexText(bytes[1..])
  }

  /** hex.DecodeString: upper or lower case, an even number of digits. */
  function DecodeHex(s: string): Option<seq<Octet>> {
    if s == "" then Some([])
    else if |s| == 1 || HexValue(s[0]).None? || HexValue(s[1]).None? then None
    else
      match DecodeHex(s[2..])
      case None => None
      case Some(tail) => Some([HexValue(s[0]).value * 16 + HexValue(s[1]).value] + tail)
  }

  predicate IsHexDigit(c: char) {
    IsDigit(c) || 'A' <= c <= 'F'
  }

  lemma {:induction false} HexRoundTrip(bytes: seq<Octet>)
    ensures DecodeHex(HexText(bytes)) == Some(bytes)
    ensures forall i :: 0 <= i < |HexText(bytes)| ==> IsHexDigit(HexText(bytes)[i])
    ensures |HexText(bytes)| == 2 * |bytes|
  {
    hide HexValue, IsHexDigit, HexText, DecodeHex;
    HexStep(bytes);
    if bytes != [] {
      var hi, lo := bytes[0] / 16, bytes[0] % 16;
      HexRoundTrip(bytes[1..]);
      NibbleRoundTrip(hi);
      NibbleRoundTrip(lo);
      DecodePair(HEX_DIGITS[hi], HEX_DIGITS[lo], HexText(bytes[1..]), bytes[1..]);
      assert [hi * 16 + lo] + bytes[1..] == bytes;
    }
  }

  lemma HexStep(bytes: seq<Octet>)
    ensures bytes == [] ==> HexText(bytes) == "" && DecodeHex("") == Some(bytes)
    ensures bytes != [] ==> HexText(bytes) == [HEX_DIGITS[bytes[0] / 16], HEX_DIGITS[bytes[0] % 16]] + HexText(bytes[1..])
  {
  }

  lemma DecodePair(hi: char, lo: char, rest: string, tail: seq<Octet>)
    requires HexValue(hi).Some? && HexValue(lo).Some? && DecodeHex(rest) == Some(tail)
    ensures DecodeHex([hi, lo] + rest) == Some([HexValue(hi).value * 16 + HexValue(lo).value] + tail)
  {
    assert ([hi, lo] + rest)[2..] == rest;
  }

  lemma NibbleRoundTrip(n: nat)
    requires n < 16
    ensures IsHexDigit(HEX_DIGITS[n]) && HexValue(HEX_DIGITS[n]) == Some(n)
  {
  }

  predicate HexChar(c: char) {
    '0' <= c <= '9' || 'A' <= c <= 'F' || 'a' <= c <= 'f'
  }

  /** A text decodes exactly when it is an even number of hex digits, small or capital
      letters alike, and then to half as many octets. */
  lemma {:induction false} DecodesIff(s: string)
    ensures DecodeHex(s).Some? <==> |s| % 2 == 0 && forall i :: 0 <= i < |s| ==> HexChar(s[i])
    ensures DecodeHex(s).Some? ==> 2 * |DecodeHex(s).value| == |s|
    ensures DecodeHex(ToLower(s)) == DecodeHex(s)
    decreases |s|
  {
    hide HexValue, ToLower, HexChar;
    SmallLetters(s);
    if |s| >= 2 {
      DecodesIff(s[2..]);
      HexValueIff(s[0]);
      HexValueIff(s[1]);
      assert ToLower(s)[2..] == ToLower(s[2..]);
      assert forall i :: 2 <= i < |s| ==> s[i] == s[2..][i - 2];
    } else if |s| == 1 {
      assert DecodeHex(s) == None;
    }
  }

  lemma SmallLetters(s: string)
    ensures |ToLower(s)| == |s| && forall i :: 0 <= i < |s| ==> ToLower(s)[i] == Lower(s[i])
    ensures |s| >= 2 ==> ToLower(s)[2..] == ToLower(s[2..])
  {
    if |s| >= 2 {
      assert forall i :: 2 <= i < |s| ==> ToLower(s)[2..][i - 2] == Lower(s[i]) == ToLower(s[2..])[i - 2];
    }
  }

  lemma HexValueIff(c: char)
    ensures HexValue(c).Some? <==> HexChar(c)
    ensures HexValue(Lower(c)) == HexValue(c)
    ensures HexValue(c).Some? ==> 0 <= HexValue(c).value < 16
  {
  }

  // ---------------------------------------------------------------- the listing

  /** A stored message: index and status as the modem lists them, the alpha and the
      length field as it prints them, and the PDU octets. */
  datatype Stored = Stored(index: nat, stat: nat, alpha: string, length: nat, pdu: seq<Octet>)

  datatype RawSms = RawSms(index: int, pdu: seq<Octet>)

  const CMGL: string := "+CMGL:"

  function HeaderLine(m: Stored): string {
    CMGL + " " + Itoa(m.index) + "," + Itoa(m.stat) + "," + m.alpha + "," + Itoa(m.length)
  }

  function PduLine(m: Stored): seq<string> {
    if m.pdu == [] then [] else [HexText(m.pdu)]
  }

  /** The non-blank lines of the listing: an empty PDU prints an empty line. */
  function Listing(stored: seq<Stored>): seq<string> {
    if stored == [] then [] else [HeaderLine(stored[0])] + PduLine(stored[0]) + Listing(stored[1..])
  }

  /** The lines of the listing that come back as reply lines. */
  function Heard(stored: seq<Stored>): seq<string> {
    if stored == [] then []
    else (if EndsCall(stored[0].alpha) then [] else [HeaderLine(stored[0])]) + PduLine(stored[0]) + Heard(stored[1..])
  }

  /** The headers of the listing that are filed as unsolicited lines. */
  function LostHeaders(stored: seq<Stored>): seq<string> {
    if stored == [] then []
    else (if EndsCall(stored[0].alpha) then [HeaderLine(stored[0])] else []) + LostHeaders(stored[1..])
  }

  /** No header of the listing reads like the end of a call. */
  ghost predicate AllHeard(stored: seq<Stored>) {
    forall i :: 0 <= i < |stored| ==> !EndsCall(stored[i].alpha)
  }

  /** Nor does any message lack its PDU. */
  ghost predicate AllReadable(stored: seq<Stored>) {
    forall i :: 0 <= i < |stored| ==> stored[i].pdu != [] && !EndsCall(stored[i].alpha)
  }

  /** The messages recovered, current being the index of the last header heard that
      no PDU followed yet. */
  function Recovered(stored: seq<Stored>, current: Option<int>): seq<RawSms> {
    if stored == [] then []
    else
      var m := stored[0];
      var index := if EndsCall(m.alpha) then current else Some(m.index as int);
      if m.pdu == [] then Recovered(stored[1..], index)
      else (if index.Some? then [RawSms(index.value, m.pdu)] else []) + Recovered(stored[1..], None)
  }

  /** The messages stored. */
  function Whole(stored: seq<Stored>): (r: seq<RawSms>)
    ensures |r| == |stored|
  {
    if stored == [] then [] else [RawSms(stored[0].index, stored[0].pdu)] + Whole(stored[1..])
  }

  /** Index of a header line, None for one that names none. */
  function HeaderIndex(line: string): Option<int>
    requires CMGL <= line
  {
    var text := TrimSpace(line[|CMGL|..]);
    var comma := IndexAny(text, {','});
    Atoi(TrimSpace(if comma < 0 then text else text[..comma]))
  }

  /** What ListSMS makes of the lines that are left, current being the header it
      waits to pair with a PDU line. */
  function Entries(lines: seq<string>, current: Option<int>): seq<RawSms> {
    if lines == [] then []
    else if CMGL <= lines[0] then
      Entries(lines[1..], if HeaderIndex(lines[0]).Some? then HeaderIndex(lines[0]) else current)
    else if current.Some? && !IsFinal(lines[0]) && !("+" <= lines[0]) then
      match DecodeHex(TrimSpace(lines[0]))
      case Some(pdu) => [RawSms(current.value, pdu)] + Entries(lines[1..], None)
      case None => Entries(lines[1..], None)
    else Entries(lines[1..], current)
  }

  /** The cursor ListSMS returns: the index of the last header it could read. */
  function Cursor(lines: seq<string>, cursor: string): string {
    if lines == [] then cursor
    else if CMGL <= lines[0] && HeaderIndex(lines[0]).Some? then Cursor(lines[1..], Itoa(HeaderIndex(lines[0]).value))
    else Cursor(lines[1..], cursor)
  }

  method ListSms(lines: seq<string>, cursor: string) returns (result: seq<RawSms>, next: string)
    ensures result == Entries(lines, None)
    ensures next == Cursor(lines, TrimSpace(cursor))
  {
    hide HeaderIndex, DecodeHex, IsFinal, TrimSpace, Itoa;
    result := [];
    var current: Option<int> := None;
    next := TrimSpace(cursor);
    for i := 0 to |lines|
      invariant result + Entries(lines[i..], current) == Entries(lines, None)
      invariant Cursor(lines[i..], next) == Cursor(lines, TrimSpace(cursor))
    {
      var line := lines[i];
      assert lines[i..][1..] == lines[i + 1..];
      if CMGL <= line {
        var index := HeaderIndex(line);
        if index.Some? {
          current := index;
          next := Itoa(index.value);
        }
      } else if current.Some? && !IsFinal(line) && !("+" <= line) {
        var pdu := DecodeHex(TrimSpace(line));
        if pdu.Some? {
          result := result + [RawSms(current.value, pdu.value)];
        }
        current := None;
      }
    }
  }

  // ---------------------------------------------------------------- what the lines of a listing are

  const LIST_COMMAND: string := "AT+CMGL=4"

  /** The header line around its alpha text. */
  function HeaderHead(m: Stored): string {
    CMGL + " " + Itoa(m.index) + "," + Itoa(m.stat) + ","
  }

  function HeaderTail(m: Stored): string {
    "," + Itoa(m.length)
  }

  ghost predicate NumberChars(s: string) {
    forall i :: 0 <= i < |s| ==> IsDigit(s[i]) || s[i] in {'+', 'C', 'M', 'G', 'L', ':', ' ', ',', '-'}
  }

  lemma HeaderText(m: Stored)
    ensures HeaderLine(m) == HeaderHead(m) + m.alpha + HeaderTail(m)
    ensures NumberChars(HeaderHead(m)) && HeaderHead(m)[|HeaderHead(m)| - 1] == ',' && NumberChars(HeaderTail(m))
    ensures Trimmed(HeaderLine(m)) && CMGL <= HeaderLine(m)
  {
    ItoaShape(m.index);
    ItoaShape(m.stat);
    ItoaShape(m.length);
    assert HeaderLine(m) == HeaderHead(m) + m.alpha + HeaderTail(m);
    var digits := Itoa(m.length);
    assert HeaderLine(m)[|HeaderLine(m)| - 1] == digits[|digits| - 1];
  }

  /** A word of capital letters occurs in text between separators exactly when it
      occurs in the text. */
  lemma WordInside(head: string, text: string, tail: string, word: string)
    requires NumberChars(head) && head != "" && head[|head| - 1] == ',' && NumberChars(tail) && tail != "" && tail[0] == ','
    requires word != "" && word[0] in {'N', 'B'} && ',' !in word
    ensures Contains(head + text + tail, word) <==> Contains(text, word)
  {
    hide IndexOf, At;
    var s := head + text + tail;
    if Contains(s, word) {
      var i := IndexOf(s, word);
      AtChar(s, word, i, 0);
      InsideText(head, text, tail, word, i);
    }
    if Contains(text, word) {
      OutsideText(head, text, tail, word, IndexOf(text, word));
    }
  }

  lemma InsideText(head: string, text: string, tail: string, word: string, i: int)
    requires NumberChars(head) && NumberChars(tail) && tail != "" && tail[0] == ','
    requires word != "" && word[0] in {'N', 'B'} && ',' !in word
    requires At(head + text + tail, word, i) && (head + text + tail)[i] == word[0]
    ensures Contains(text, word)
  {
    var s := head + text + tail;
    assert |head| <= i < |head| + |text|;
    if i + |word| > |head| + |text| {
      AtChar(s, word, i, |head| + |text| - i);
    }
    assert text[i - |head|..i - |head| + |word|] == s[i..i + |word|];
    assert At(text, word, i - |head|);
  }

  lemma OutsideText(head: string, text: string, tail: string, word: string, i: int)
    requires At(text, word, i)
    ensures Contains(head + text + tail, word)
  {
    var s := head + text + tail;
    assert s[|head| + i..|head| + i + |word|] == text[i..i + |word|];
    assert At(s, word, |head| + i);
  }

  /** Neither an echo nor unsolicited nor final. */
  ghost predicate PlainReply(line: string) {
    KindOf(line, Some(LIST_COMMAND)).Reply? && !IsFinal(line)
  }

  /** A header line is filed as unsolicited exactly when its alpha text reads like
      the end of a call. */
  lemma HeaderKind(m: Stored)
    ensures KindOf(HeaderLine(m), Some(LIST_COMMAND)) == if EndsCall(m.alpha) then Urc else Reply
    ensures !IsFinal(HeaderLine(m))
  {
    hide EndsCall, ToLower, TrimSpace, HeaderHead, HeaderTail, HeaderLine;
    var line := HeaderLine(m);
    HeaderText(m);
    HeaderEndsCall(m);
    assert line[0] == '+' && line[1] == 'C' && line[2] == 'M' && line[3] == 'G';
    assert ToLower(line)[0] != ToLower(LIST_COMMAND)[0];
    assert line[3] != "+CMTI:"[3] && line[3] != "+CMT:"[3] && line[2] != "+CLIP:"[2];
    assert line[3] != "+CME ERROR"[3] && line[3] != "+CMS ERROR"[3];
  }

  lemma HeaderEndsCall(m: Stored)
    ensures EndsCall(HeaderLine(m)) <==> EndsCall(m.alpha)
  {
    hide Contains, HeaderHead, HeaderTail, HeaderLine;
    HeaderText(m);
    TailText(m);
    WordInside(HeaderHead(m), m.alpha, HeaderTail(m), "NO CARRIER");
    WordInside(HeaderHead(m), m.alpha, HeaderTail(m), "BUSY");
    WordInside(HeaderHead(m), m.alpha, HeaderTail(m), "NO ANSWER");
  }

  /** What a header does to the active call if it reaches the handler: one that reads
      like the end of a call ends it, any other does nothing. */
  lemma LostHeaderEndsTheCall(m: Stored, d: CallLine.Desk, newID: string)
    ensures CallLine.OnUrc(d, HeaderLine(m), newID) == if EndsCall(m.alpha) then CallLine.OnCallEnd(d, HeaderLine(m)) else d
    ensures EndsCall(m.alpha) ==> CallLine.OnUrc(d, HeaderLine(m), newID).active == ""
  {
    hide EndsCall, TrimSpace, HeaderLine;
    var line := HeaderLine(m);
    HeaderText(m);
    HeaderEndsCall(m);
    assert line[0] == '+' && line[2] == 'M' && "+CLIP:"[2] == 'L' && "RING"[0] == 'R';
  }

  lemma TailText(m: Stored)
    ensures HeaderTail(m) != "" && HeaderTail(m)[0] == ',' && HeaderHead(m) != ""
  {
  }

  lemma HexIsReply(pdu: seq<Octet>)
    requires pdu != []
    ensures PlainReply(HexText(pdu)) && Trimmed(HexText(pdu)) && !("+" <= HexText(pdu)) && !(CMGL <= HexText(pdu))
  {
    hide Contains, HexText, TrimSpace, ToLower;
    var line := HexText(pdu);
    HexRoundTrip(pdu);
    assert IsHexDigit(line[0]) && IsHexDigit(line[1]);
    assert 'N' !in line && 'U' !in line;
    NotContained(line, "NO CARRIER", 0);
    NotContained(line, "BUSY", 1);
    NotContained(line, "NO ANSWER", 0);
    assert ToLower(line)[1] != ToLower(LIST_COMMAND)[1];
    assert line[0] != "+CMTI:"[0];
  }

  lemma HeaderIndexReads(m: Stored)
    requires IsInt64(m.index)
    ensures CMGL <= HeaderLine(m) && HeaderIndex(HeaderLine(m)) == Some(m.index)
  {
    hide Atoi, Itoa, TrimSpace, HeaderLine;
    var line, number := HeaderLine(m), Itoa(m.index);
    HeaderText(m);
    ItoaShape(m.index);
    var tail := "," + Itoa(m.stat) + "," + m.alpha + "," + Itoa(m.length);
    HeaderFields(m);
    TrimLeadingBlank(number + tail);
    IndexAnyIs(number + tail, {','}, |number|);
    assert (number + tail)[..|number|] == number;
    AtoiItoa(m.index);
  }

  lemma HeaderFields(m: Stored)
    ensures var text := Itoa(m.index) + ("," + Itoa(m.stat) + "," + m.alpha + "," + Itoa(m.length));
            HeaderLine(m)[|CMGL|..] == " " + text && Trimmed(text)
  {
    ItoaShape(m.index);
    ItoaShape(m.length);
    hide Itoa;
    var text := Itoa(m.index) + ("," + Itoa(m.stat) + "," + m.alpha + "," + Itoa(m.length));
    assert HeaderLine(m) == CMGL + (" " + text);
    var digits := Itoa(m.length);
    assert text[|text| - 1] == digits[|digits| - 1];
  }

  lemma {:induction false} HeardIsReply(stored: seq<Stored>)
    ensures forall i :: 0 <= i < |Heard(stored)| ==> PlainReply(Heard(stored)[i])
  {
    hide HexText, HeaderLine, EndsCall, KindOf, IsFinal;
    if stored == [] {
      assert Heard(stored) == [];
    } else {
      HeaderKind(stored[0]);
      if stored[0].pdu != [] {
        HexIsReply(stored[0].pdu);
      }
      HeardIsReply(stored[1..]);
    }
  }

  /** Of the listing's lines the reply holds exactly the ones heard; the headers it
      lacks went to the unsolicited lines. */
  lemma {:induction false} ListingIsHeard(stored: seq<Stored>)
    ensures Only(Listing(stored) + ["OK"], Reply, Some(LIST_COMMAND)) == Heard(stored) + ["OK"]
    ensures Only(Listing(stored) + ["OK"], Urc, Some(LIST_COMMAND)) == LostHeaders(stored)
  {
    hide HexText, HeaderLine, EndsCall, KindOf, Only, PduLine;
    var echo := Some(LIST_COMMAND);
    NothingIsOnly(echo);
    if stored == [] {
      OkIsFinal();
      assert Listing(stored) + ["OK"] == ["OK"] + [] && Heard(stored) + ["OK"] == ["OK"];
      OnlyCons("OK", [], Reply, echo);
      OnlyCons("OK", [], Urc, echo);
    } else {
      ListingIsHeard(stored[1..]);
      var m, tail := stored[0], Listing(stored[1..]) + ["OK"];
      assert Listing(stored) + ["OK"] == [HeaderLine(m)] + (PduLine(m) + tail);
      EntryIsHeard(m, tail);
    }
  }

  lemma {:induction false} NoneLostIff(stored: seq<Stored>)
    ensures LostHeaders(stored) == [] <==> AllHeard(stored)
  {
    hide EndsCall, HeaderLine;
    if stored == [] {
    } else {
      NoneLostIff(stored[1..]);
      assert forall i :: 0 < i < |stored| ==> stored[i] == stored[1..][i - 1];
    }
  }

  lemma EntryIsHeard(m: Stored, tail: seq<string>)
    ensures var echo := Some(LIST_COMMAND);
            && Only([HeaderLine(m)] + (PduLine(m) + tail), Reply, echo)
               == (if EndsCall(m.alpha) then [] else [HeaderLine(m)]) + PduLine(m) + Only(tail, Reply, echo)
            && Only([HeaderLine(m)] + (PduLine(m) + tail), Urc, echo)
               == (if EndsCall(m.alpha) then [HeaderLine(m)] else []) + Only(tail, Urc, echo)
  {
    hide HexText, HeaderLine, EndsCall, KindOf, Only, PduLine;
    HeaderKind(m);
    PduIsHeard(m, tail, Reply);
    PduIsHeard(m, tail, Urc);
    OnlyCons(HeaderLine(m), PduLine(m) + tail, Reply, Some(LIST_COMMAND));
    OnlyCons(HeaderLine(m), PduLine(m) + tail, Urc, Some(LIST_COMMAND));
  }

  lemma PduIsHeard(m: Stored, tail: seq<string>, kind: Kind)
    ensures Only(PduLine(m) + tail, kind, Some(LIST_COMMAND))
            == (if kind == Reply then PduLine(m) else []) + Only(tail, kind, Some(LIST_COMMAND))
  {
    hide HexText, KindOf, Only;
    if m.pdu == [] {
      assert PduLine(m) + tail == tail;
    } else {
      HexIsReply(m.pdu);
      OnlyCons(HexText(m.pdu), tail, kind, Some(LIST_COMMAND));
    }
  }

  /** The loop undoes the listing as far as it is heard, in order. */
  lemma {:induction false} EntriesOfListing(stored: seq<Stored>, current: Option<int>)
    requires forall i :: 0 <= i < |stored| ==> IsInt64(stored[i].index)
    ensures Entries(Heard(stored) + ["OK"], current) == Recovered(stored, current)
  {
    hide HeaderLine, HexText, Entries, EndsCall;
    if stored == [] {
      assert Heard(stored) + ["OK"] == ["OK"];
      EntriesOfOk(current);
    } else {
      var m, tail := stored[0], Heard(stored[1..]) + ["OK"];
      var index := if EndsCall(m.alpha) then current else Some(m.index as int);
      if EndsCall(m.alpha) {
        assert Heard(stored) + ["OK"] == PduLine(m) + tail;
      } else {
        assert Heard(stored) + ["OK"] == [HeaderLine(m)] + (PduLine(m) + tail);
        EntriesAfterHeader(m, PduLine(m) + tail, current);
      }
      if m.pdu == [] {
        assert PduLine(m) + tail == tail;
        EntriesOfListing(stored[1..], index);
      } else {
        EntriesAfterPdu(m.pdu, tail, index);
        EntriesOfListing(stored[1..], None);
      }
    }
  }

  /** A line that begins with a plus and is no header, and a final one, can stand
      anywhere: they change nothing. */
  lemma {:induction false} OtherLinesPlayNoPart(a: seq<string>, line: string, b: seq<string>, current: Option<int>)
    requires !(CMGL <= line) && ("+" <= line || line == "OK" || line == "ERROR")
    ensures Entries(a + [line] + b, current) == Entries(a + b, current)
    decreases |a|
  {
    hide HeaderIndex, DecodeHex, TrimSpace;
    if a == [] {
      assert a + [line] + b == [line] + b && a + b == b;
      assert ([line] + b)[1..] == b;
    } else {
      var tail := a[1..] + [line] + b;
      assert a + [line] + b == [a[0]] + tail && a + b == [a[0]] + (a[1..] + b);
      forall c: Option<int>
        ensures Entries(tail, c) == Entries(a[1..] + b, c)
      {
        OtherLinesPlayNoPart(a[1..], line, b, c);
      }
    }
  }

  /** A line that is no PDU uses up the header before it, and a header without a number
      leaves the one before it in force. */
  lemma BrokenLines(line: string, rest: seq<string>, current: Option<int>)
    ensures !("+" <= line) && !(CMGL <= line) && DecodeHex(TrimSpace(line)) == None && !IsFinal(line) ==>
              Entries([line] + rest, current) == Entries(rest, None)
    ensures CMGL <= line && HeaderIndex(line) == None ==> Entries([line] + rest, current) == Entries(rest, current)
  {
    hide HeaderIndex, DecodeHex, TrimSpace;
    assert ([line] + rest)[1..] == rest;
    if current.None? && !(CMGL <= line) {
      assert Entries([line] + rest, current) == Entries(rest, current);
    }
  }

  /** The cursor is the number of the last header that has one. */
  lemma {:induction false} CursorIsTheLastIndex(lines: seq<string>, i: nat, cursor: string)
    requires i < |lines| && CMGL <= lines[i] && HeaderIndex(lines[i]).Some?
    requires forall j :: i < j < |lines| && CMGL <= lines[j] ==> HeaderIndex(lines[j]).None?
    ensures Cursor(lines, cursor) == Itoa(HeaderIndex(lines[i]).value)
    decreases |lines|
  {
    hide HeaderIndex, Itoa;
    var next := if CMGL <= lines[0] && HeaderIndex(lines[0]).Some? then Itoa(HeaderIndex(lines[0]).value) else cursor;
    if i == 0 {
      CursorStays(lines[1..], next);
    } else {
      CursorIsTheLastIndex(lines[1..], i - 1, next);
    }
  }

  lemma {:induction false} CursorStays(lines: seq<string>, cursor: string)
    requires forall j :: 0 <= j < |lines| && CMGL <= lines[j] ==> HeaderIndex(lines[j]).None?
    ensures Cursor(lines, cursor) == cursor
  {
    hide HeaderIndex, Itoa;
    if lines != [] {
      CursorStays(lines[1..], cursor);
    }
  }

  lemma EntriesOfOk(current: Option<int>)
    ensures Entries(["OK"], current) == []
  {
    hide IsFinal;
    OkIsFinal();
    assert ["OK"][1..] == [];
  }

  lemma EntriesAfterHeader(m: Stored, rest: seq<string>, current: Option<int>)
    requires IsInt64(m.index)
    ensures Entries([HeaderLine(m)] + rest, current) == Entries(rest, Some(m.index))
  {
    hide HeaderLine, HeaderIndex, IsFinal;
    HeaderText(m);
    HeaderIndexReads(m);
    assert ([HeaderLine(m)] + rest)[1..] == rest;
  }

  lemma EntriesAfterPdu(pdu: seq<Octet>, rest: seq<string>, index: Option<int>)
    requires pdu != []
    ensures Entries([HexText(pdu)] + rest, index) == (if index.Some? then [RawSms(index.value, pdu)] else []) + Entries(rest, None)
  {
    hide HexText, DecodeHex, IsFinal, TrimSpace;
    HexIsReply(pdu);
    HexRoundTrip(pdu);
    assert ([HexText(pdu)] + rest)[1..] == rest;
  }

  lemma OkIsFinal()
    ensures IsFinal("OK") && !(CMGL <= "OK") && KindOf("OK", Some(LIST_COMMAND)).Reply?
  {
    hide Contains, ToLower, TrimSpace;
    NotContained("OK", "NO CARRIER", 0);
    NotContained("OK", "BUSY", 0);
    NotContained("OK", "NO ANSWER", 0);
  }

  // ---------------------------------------------------------------- from the port to the entries

  lemma {:induction false} OnlyOfPrefix(lines: seq<string>, n: nat, kind: Kind, echo: Option<string>)
    requires n <= |lines|
    ensures Only(lines, kind, echo) == Only(lines[..n], kind, echo) + Only(lines[n..], kind, echo)
  {
    hide KindOf;
    if n == 0 {
    } else {
      assert lines[..n][0] == lines[0] && lines[..n][1..] == lines[1..][..n - 1] && lines[n..] == lines[1..][n - 1..];
      OnlyOfPrefix(lines[1..], n - 1, kind, echo);
    }
  }

  lemma {:induction false} OnlyHasLast(lines: seq<string>, echo: Option<string>)
    requires lines != [] && KindOf(lines[|lines| - 1], echo).Reply?
    ensures Only(lines, Reply, echo) != []
  {
    hide KindOf;
    if |lines| == 1 {
    } else {
      assert lines[1..][|lines| - 2] == lines[|lines| - 1];
      OnlyHasLast(lines[1..], echo);
    }
  }

  /** A listing closed by OK ends where its first final line is. */
  lemma ListingUsesAll(lines: seq<string>, stored: seq<Stored>)
    requires lines != [] && lines[|lines| - 1] == "OK"
    requires Only(lines, Reply, Some(LIST_COMMAND)) == Heard(stored) + ["OK"]
    ensures Used(lines, Some(LIST_COMMAND)) == |lines| && ScanLines(lines, Some(LIST_COMMAND)).done
  {
    hide KindOf, IsFinal, ScanLines, Used, Heard, Only;
    var echo := Some(LIST_COMMAND);
    var n := Used(lines, echo);
    OkIsFinal();
    ScanStopsAtFinal(lines, echo);
    ScanPartitions(lines, echo);
    HeardIsReply(stored);
    OnlyOfPrefix(lines, n, Reply, echo);
    var reply := Only(lines[..n], Reply, echo);
    assert reply[|reply| - 1] == (Heard(stored) + ["OK"])[|reply| - 1];
    if n < |lines| {
      OnlyHasLast(lines[n..], echo);
    }
  }

  lemma ListingIsScanned(lines: seq<string>, stored: seq<Stored>)
    requires lines != [] && lines[|lines| - 1] == "OK"
    requires Only(lines, Reply, Some(LIST_COMMAND)) == Heard(stored) + ["OK"]
    ensures ScanLines(lines, Some(LIST_COMMAND)) == Scan(Heard(stored) + ["OK"], Only(lines, Urc, Some(LIST_COMMAND)), true)
  {
    hide KindOf, IsFinal, ScanLines, Used, Heard, Only;
    ListingUsesAll(lines, stored);
    ScanPartitions(lines, Some(LIST_COMMAND));
    assert lines[..|lines|] == lines;
  }

  /** lines are a and b merged, each in its own order. */
  predicate Merges(lines: seq<string>, a: seq<string>, b: seq<string>)
    decreases |lines|
  {
    if lines == [] then a == [] && b == []
    else
      || (a != [] && lines[0] == a[0] && Merges(lines[1..], a[1..], b))
      || (b != [] && lines[0] == b[0] && Merges(lines[1..], a, b[1..]))
  }

  /** Lines of one kind are merged like the lines they come from. */
  lemma {:induction false} OnlyMerges(lines: seq<string>, a: seq<string>, b: seq<string>, kind: Kind, echo: Option<string>)
    requires Merges(lines, a, b)
    ensures Merges(Only(lines, kind, echo), Only(a, kind, echo), Only(b, kind, echo))
    decreases |lines|
  {
    hide KindOf;
    if lines == [] {
      assert Only(lines, kind, echo) == [];
    } else if a != [] && lines[0] == a[0] && Merges(lines[1..], a[1..], b) {
      OnlyMerges(lines[1..], a[1..], b, kind, echo);
      MergesHead(lines, a, kind, echo);
    } else {
      OnlyMerges(lines[1..], a, b[1..], kind, echo);
      MergesHead(lines, b, kind, echo);
    }
  }

  lemma MergesHead(lines: seq<string>, a: seq<string>, kind: Kind, echo: Option<string>)
    requires lines != [] && a != [] && lines[0] == a[0]
    ensures KindOf(a[0], echo) == kind ==>
              && Only(lines, kind, echo) == [a[0]] + Only(lines[1..], kind, echo)
              && Only(a, kind, echo) == [a[0]] + Only(a[1..], kind, echo)
              && Only(lines, kind, echo)[1..] == Only(lines[1..], kind, echo)
              && Only(a, kind, echo)[1..] == Only(a[1..], kind, echo)
    ensures KindOf(a[0], echo) != kind ==>
              Only(lines, kind, echo) == Only(lines[1..], kind, echo) && Only(a, kind, echo) == Only(a[1..], kind, echo)
  {
    hide KindOf;
  }

  lemma {:induction false} MergesWithNothing(lines: seq<string>, a: seq<string>)
    ensures Merges(lines, a, []) ==> lines == a
    ensures Merges(lines, [], a) ==> lines == a
  {
    if lines == [] {
      assert Merges(lines, a, []) ==> a == [];
    } else if a != [] {
      MergesWithNothing(lines[1..], a[1..]);
    }
  }

  lemma {:induction false} NothingOfKind(lines: seq<string>, kind: Kind, echo: Option<string>)
    requires forall i :: 0 <= i < |lines| ==> KindOf(lines[i], echo) != kind
    ensures Only(lines, kind, echo) == []
  {
    hide KindOf;
    if lines == [] {
      assert Only(lines, kind, echo) == [];
    } else {
      NothingOfKind(lines[1..], kind, echo);
    }
  }

  /** What the exchange makes of a listing with other lines in between. */
  lemma ListingWithNoise(lines: seq<string>, stored: seq<Stored>, noise: seq<string>)
    requires Merges(lines, Listing(stored) + ["OK"], noise)
    requires forall i :: 0 <= i < |noise| ==> !KindOf(noise[i], Some(LIST_COMMAND)).Reply?
    ensures Only(lines, Reply, Some(LIST_COMMAND)) == Heard(stored) + ["OK"]
    ensures Merges(Only(lines, Urc, Some(LIST_COMMAND)), LostHeaders(stored), Only(noise, Urc, Some(LIST_COMMAND)))
    ensures AllHeard(stored) ==> Only(lines, Urc, Some(LIST_COMMAND)) == Only(noise, Urc, Some(LIST_COMMAND))
  {
    hide KindOf, Only, Merges, Listing, Heard, AllHeard, LostHeaders;
    NoneLostIff(stored);
    var echo := Some(LIST_COMMAND);
    ListingIsHeard(stored);
    NothingOfKind(noise, Reply, echo);
    OnlyMerges(lines, Listing(stored) + ["OK"], noise, Reply, echo);
    MergesWithNothing(Only(lines, Reply, echo), Heard(stored) + ["OK"]);
    OnlyMerges(lines, Listing(stored) + ["OK"], noise, Urc, echo);
    MergesWithNothing(Only(lines, Urc, echo), Only(noise, Urc, echo));
  }

  /** From the bytes on the port back to the stored messages: for every list, any
      alpha texts, any echo and unsolicited lines merged into its lines, blank lines
      anywhere, and every fragmentation of the bytes, whatever follows them. The
      messages recovered are all that are stored, in order, if and only if each has
      a PDU and no alpha text reads like the end of a call. The handler gets the
      unsolicited lines in order, and among them the headers that were lost. */
  lemma ListSmsRecoversStorage(raw: seq<string>, stored: seq<Stored>, noise: seq<string>, input: seq<Read>)
    requires forall i :: 0 <= i < |stored| ==> IsInt64(stored[i].index)
    requires forall i :: 0 <= i < |raw| ==> CleanLine(raw[i])
    requires raw != [] && raw[|raw| - 1] == "OK"
    requires Merges(NonBlank(raw), Listing(stored) + ["OK"], noise)
    requires forall i :: 0 <= i < |noise| ==> !KindOf(noise[i], Some(LIST_COMMAND)).Reply?
    requires OnPort(raw) <= Stream(input)
    ensures var out := Answer(input, Some(LIST_COMMAND));
            && out.verdict == Accepted
            && Entries(out.reply, None) == Recovered(stored, None)
            && (Entries(out.reply, None) == Whole(stored) <==> AllReadable(stored))
            && Merges(out.urcs, LostHeaders(stored), Only(noise, Urc, Some(LIST_COMMAND)))
            && (AllHeard(stored) ==> out.urcs == Only(noise, Urc, Some(LIST_COMMAND)))
  {
    hide *;
    var echo := Some(LIST_COMMAND);
    var scan := Scan(Heard(stored) + ["OK"], Only(NonBlank(raw), Urc, echo), true);
    LinesOnPort(raw);
    LastNonBlank(raw);
    ListingWithNoise(NonBlank(raw), stored, noise);
    ListingIsScanned(NonBlank(raw), stored);
    HeadDecides(input, OnPort(raw), echo);
    SettledByOk(scan);
    EntriesOfListing(stored, None);
    WholeListIff(stored);
  }

  lemma SettledByOk(s: Scan)
    requires s.done && s.reply != [] && s.reply[|s.reply| - 1] == "OK"
    ensures Settle(s, Accepted) == Outcome(s.reply, s.urcs, Accepted)
  {
  }

  lemma {:induction false} LastNonBlank(raw: seq<string>)
    requires raw != [] && raw[|raw| - 1] == "OK"
    ensures NonBlank(raw) != [] && NonBlank(raw)[|NonBlank(raw)| - 1] == "OK"
  {
    if |raw| == 1 {
      assert raw[1..] == [];
    } else {
      LastNonBlank(raw[1..]);
    }
  }

  lemma AllReadableStep(stored: seq<Stored>)
    requires stored != []
    ensures AllReadable(stored) <==> stored[0].pdu != [] && !EndsCall(stored[0].alpha) && AllReadable(stored[1..])
  {
    hide EndsCall;
    assert forall i :: 0 < i < |stored| ==> stored[i] == stored[1..][i - 1];
  }

  /** Fewer messages than stored come back as soon as one cannot be read. */
  lemma {:induction false} RecoveredCount(stored: seq<Stored>, current: Option<int>)
    ensures |Recovered(stored, current)| <= |stored|
    ensures current.None? && !AllReadable(stored) ==> |Recovered(stored, current)| < |stored|
  {
    hide EndsCall, AllReadable;
    if stored == [] {
      assert AllReadable(stored) by { NothingToRead(); }
    } else {
      RecoveredCount(stored[1..], None);
      AllReadableStep(stored);
      if stored[0].pdu == [] {
        RecoveredCount(stored[1..], if EndsCall(stored[0].alpha) then current else Some(stored[0].index as int));
      }
    }
  }

  lemma NothingToRead()
    ensures AllReadable([])
  {
  }

  lemma {:induction false} ReadableComesBack(stored: seq<Stored>)
    requires AllReadable(stored)
    ensures Recovered(stored, None) == Whole(stored)
  {
    hide EndsCall;
    if stored == [] {
      assert Recovered(stored, None) == [];
    } else {
      AllReadableStep(stored);
      ReadableComesBack(stored[1..]);
    }
  }

  /** The list comes back whole if and only if every message has a PDU and no alpha
      text reads like the end of a call. */
  lemma WholeListIff(stored: seq<Stored>)
    ensures Recovered(stored, None) == Whole(stored) <==> AllReadable(stored)
  {
    hide EndsCall, AllReadable, Recovered, Whole;
    RecoveredCount(stored, None);
    if AllReadable(stored) {
      ReadableComesBack(stored);
    }
  }

  /** A sender the phone book calls BUSY: the message is lost. */
  lemma BusySenderIsLost()
    ensures Recovered([Stored(1, 1, "\"BUSY\"", 20, [7])], None) == []
  {
    BusyIsCallEnd();
    assert [Stored(1, 1, "\"BUSY\"", 20, [7])][1..] == [];
  }

  /** Behind a message with an empty PDU it is even filed under that one's index. */
  lemma BusySenderIsMisfiled()
    ensures Recovered([Stored(1, 0, "", 0, []), Stored(2, 1, "\"BUSY\"", 20, [7])], None) == [RawSms(1, [7])]
  {
    BusyIsCallEnd();
    var stored := [Stored(1, 0, "", 0, []), Stored(2, 1, "\"BUSY\"", 20, [7])];
    NoWordInNothing("NO CARRIER");
    NoWordInNothing("BUSY");
    NoWordInNothing("NO ANSWER");
    assert stored[1..] == [Stored(2, 1, "\"BUSY\"", 20, [7])] && stored[1..][1..] == [];
  }

  /** A message whose PDU line is empty is dropped. */
  lemma EmptyPduIsDropped()
    ensures Recovered([Stored(1, 0, "", 0, [])], None) == []
  {
    assert [Stored(1, 0, "", 0, [])][1..] == [];
  }

  lemma NoWordInNothing(word: string)
    requires word != ""
    ensures !Contains("", word)
  {
  }

  lemma BusyIsCallEnd()
    ensures EndsCall("\"BUSY\"")
  {
    assert At("\"BUSY\"", "BUSY", 1);
  }
}
