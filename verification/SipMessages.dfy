/** The SIP text layer: how the gateway prints requests and responses, and how
    it reads headers back out of the bytes it received or sent. */
module SipMessages {
  import opened Text

  // ---------------------------------------------------------------- reading

  predicate HeaderMatch(line: string, name: string) {
    ToLower(name) + ":" <= ToLower(line)
  }

  function FirstHeader(lines: seq<string>, name: string): string {
    if lines == [] then ""
    else if HeaderMatch(lines[0], name) then TrimSpace(lines[0][|name| + 1..])
    else FirstHeader(lines[1..], name)
  }

  /** Value of the first header called name, or "" when there is none. */
  function ParseHeader(msg: string, name: string): string {
    FirstHeader(Split(msg), name)
  }

  /** The loop that does the lookup: it stops at the first matching line. */
  method ScanForHeader(msg: string, name: string) returns (value: string)
    ensures value == ParseHeader(msg, name)
  {
    var lines := Split(msg);
    for i := 0 to |lines|
      invariant FirstHeader(lines, name) == FirstHeader(lines[i..], name)
    {
      if HeaderMatch(lines[i], name) {
        return TrimSpace(lines[i][|name| + 1..]);
      }
    }
    return "";
  }

  function RequestUriOf(msg: string): (uri: string)
    ensures NoSpace(uri)
  {
    var i := IndexOf(msg, CRLF);
    var fields := Fields(if i < 0 then msg else msg[..i]);
    if |fields| < 2 then "" else fields[1]
  }

  /** The first word of the first line. */
  function MethodOf(msg: string): (verb: string)
    ensures NoSpace(verb)
  {
    var i := IndexOf(msg, CRLF);
    var fields := Fields(if i < 0 then msg else msg[..i]);
    if fields == [] then "" else fields[0]
  }

  /** The second word of the first line of a response. */
  function StatusOf(msg: string): Option<int> {
    Atoi(RequestUriOf(msg))
  }

  /** The text behind the first empty line. */
  function BodyOf(msg: string): string {
    var i := IndexOf(msg, CRLF);
    if i < 0 then "" else if i == 0 then msg[2..] else BodyOf(msg[i + 2..])
  }

  const BRANCH: string := "branch="
  const BRANCH_STOP: set<char> := {';', ',', ' ', '\t'}

  function CutBranch(rest: string): string {
    var j := IndexAny(rest, BRANCH_STOP);
    TrimSpace(if j < 0 then rest else rest[..j])
  }

  function BranchOfVia(via: string): string {
    var i := IndexOf(via, BRANCH);
    if i < 0 then "" else CutBranch(via[i + |BRANCH|..])
  }

  function ViaBranchOf(msg: string): string {
    BranchOfVia(ParseHeader(msg, "Via"))
  }

  function CSeqNumber(cseq: string): (n: int)
    ensures IsInt64(n)
  {
    var fields := Fields(cseq);
    if fields == [] then 0
    else match Atoi(fields[0]) case Some(n) => n case None => 0
  }

  function CSeqMethod(cseq: string): (verb: string)
    ensures NoSpace(verb)
  {
    var fields := Fields(cseq);
    if |fields| < 2 then "" else fields[1]
  }

  // ---------------------------------------------------------------- printing

  /** The headers every message of the gateway opens with. Requests it
      originates inside a dialog carry Max-Forwards right after the Via. */
  function Headers(via: string, hops: bool, from: string, to: string, callID: string, cseq: string, tail: string): string {
    var ident := Line("From: " + from, Line("To: " + to, Line("Call-ID: " + callID, Line("CSeq: " + cseq, tail))));
    Line("Via: " + via, if hops then Line("Max-Forwards: 70", ident) else ident)
  }

  function ViaText(localIP: string, branch: string): string {
    "SIP/2.0/UDP " + localIP + ":5060;" + BRANCH + branch + ";rport"
  }

  /** The tag a response adds to the request's To: the pinned one, a minted one
      when none is pinned, and none when the To already carries a tag. */
  function ResponseTag(to: string, tag: string, minted: string): string {
    if Contains(to, "tag=") then "" else if tag == "" then ";tag=" + minted else tag
  }

  function BuildResponse(req: string, code: int, reason: string, extraHeaders: string, body: string,
                         tag: string, minted: string): string {
    var to := ParseHeader(req, "To");
    Line("SIP/2.0 " + Itoa(code) + " " + reason,
         Headers(ParseHeader(req, "Via"), false, ParseHeader(req, "From"), to + ResponseTag(to, tag, minted),
                 ParseHeader(req, "Call-ID"), ParseHeader(req, "CSeq"),
                 extraHeaders + Line("Content-Length: " + Itoa(|body|), Line("", body))))
  }

  const NO_BODY: string := Line("Content-Length: 0", Line("", ""))

  function RenderCancel(uri: string, localIP: string, branch: string, from: string, to: string, callID: string, number: int): string {
    Line("CANCEL " + uri + " SIP/2.0",
         Headers(ViaText(localIP, branch), true, from, to, callID, Itoa(number) + " CANCEL", NO_BODY))
  }

  function RenderBye(uri: string, localIP: string, branch: string, from: string, to: string, callID: string, number: int): string {
    Line("BYE " + uri + " SIP/2.0",
         Headers(ViaText(localIP, branch), true, from, to, callID, Itoa(number) + " BYE", NO_BODY))
  }

  /** The INVITE that rings a client for a cellular call. */
  function RenderInvite(user: string, local: string, branch: string, callerFrom: string, shortID: string,
                        callID: string, callerHeaders: string, sdp: string): string {
    Line("INVITE sip:" + user + "@" + local + " SIP/2.0",
         Headers(ViaText(local, branch), false, callerFrom + ";tag=cb" + shortID, "<sip:" + user + "@" + local + ">",
                 callID, "1 INVITE", InviteTail(local, callerHeaders, sdp)))
  }

  function InviteTail(local: string, callerHeaders: string, sdp: string): string {
    Line("Contact: <sip:cellbridge@" + local + ":5060>",
         Line("Max-Forwards: 70",
              callerHeaders
              + Line("Content-Type: application/sdp", Line("Content-Length: " + Itoa(|sdp|), Line("", sdp)))))
  }

  /** The CANCEL for an INVITE, every field copied out of the sent bytes;
      "" when one of them is missing. */
  function CancelMessage(inviteReq: string, localIP: string): string {
    var uri, branch := RequestUriOf(inviteReq), ViaBranchOf(inviteReq);
    var from, to := ParseHeader(inviteReq, "From"), ParseHeader(inviteReq, "To");
    var callID, cseq := ParseHeader(inviteReq, "Call-ID"), ParseHeader(inviteReq, "CSeq");
    if inviteReq == "" || localIP == "" || uri == "" || branch == "" || from == "" || to == "" || callID == "" || cseq == "" then ""
    else RenderCancel(uri, localIP, branch, from, to, callID, CSeqNumber(cseq))
  }

  // ---------------------------------------------------------------- re-reading what was printed

  lemma FirstHeaderIsLine(lines: seq<string>, name: string)
    requires forall i :: 0 <= i < |lines| ==> NoCrlf(lines[i])
    ensures NoCrlf(FirstHeader(lines, name)) && Trimmed(FirstHeader(lines, name))
  {
    if lines == [] {
      NoLfNoCrlf("");
    } else if HeaderMatch(lines[0], name) {
      NoCrlfDrop(lines[0], |name| + 1);
      NoCrlfTrim(lines[0][|name| + 1..]);
    } else {
      FirstHeaderIsLine(lines[1..], name);
    }
  }

  /** Whatever the message, a parsed value cannot introduce a line break. */
  lemma ParsedIsLine(msg: string, name: string)
    ensures NoCrlf(ParseHeader(msg, name)) && Trimmed(ParseHeader(msg, name))
  {
    FirstHeaderIsLine(Split(msg), name);
  }

  lemma LabelledIsLine(head: string, value: string)
    requires '\n' !in head && head != "" && head[|head| - 1] == ' '
    requires NoCrlf(value)
    ensures NoCrlf(head + value)
  {
    NoLfNoCrlf(head);
    NoCrlfConcat(head, value);
  }

  /** A header is found under every spelling of its name, with or without a blank
      behind the colon, with lines behind it or none. */
  lemma SpellingRead(n: string, name: string, value: string, rest: string)
    requires ToLower(n) == ToLower(name) && NoCrlf(n + ":" + value)
    ensures ParseHeader(Line(n + ":" + value, rest), name) == TrimSpace(value) == ParseHeader(n + ":" + value, name)
  {
    hide TrimSpace;
    var line := n + ":" + value;
    SplitLine(line, rest);
    LoneLine(line);
    assert ToLower(line)[..|name| + 1] == ToLower(name) + ":";
    assert |n| == |name| && line[|name| + 1..] == value;
  }

  /** A text without a line break is one line. */
  lemma LoneLine(line: string)
    requires NoCrlf(line)
    ensures Split(line) == [line]
  {
    assert !At(line, CRLF, IndexOf(line, CRLF));
  }

  /** A line that starts with no spelling of the name and a colon is passed over. */
  lemma OtherLinePassed(line: string, rest: string, name: string)
    requires NoCrlf(line)
    requires forall n: string :: ToLower(n) == ToLower(name) ==> !(n + ":" <= line)
    ensures ParseHeader(Line(line, rest), name) == ParseHeader(rest, name) && ParseHeader(line, name) == ""
  {
    hide TrimSpace, HeaderMatch;
    SplitLine(line, rest);
    LoneLine(line);
    assert ([line] + Split(rest))[1..] == Split(rest) && [line][1..] == [];
    assert FirstHeader([], name) == "";
    if HeaderMatch(line, name) {
      MatchIsSpelling(line, name);
    }
  }

  lemma MatchIsSpelling(line: string, name: string)
    requires HeaderMatch(line, name)
    ensures |name| < |line| && ToLower(line[..|name|]) == ToLower(name) && line[..|name|] + ":" <= line
  {
    var low := ToLower(name) + ":";
    assert ToLower(line)[..|low|] == low;
    forall i | 0 <= i < |name|
      ensures Lower(line[i]) == Lower(name[i])
    {
      assert ToLower(line)[i] == low[i];
    }
    assert ToLower(line)[|name|] == low[|name|];
    ColonOnly(line[|name|]);
    assert line[..|name| + 1] == line[..|name|] + ":";
  }

  lemma ColonOnly(c: char)
    ensures Lower(c) == ':' <==> c == ':'
  {
  }

  datatype Header = Header(name: string, value: string)

  ghost predicate Printable(hs: seq<Header>) {
    forall i :: 0 <= i < |hs| ==> hs[i].name != "" && ':' !in hs[i].name && '\n' !in hs[i].name && NoCrlf(hs[i].value)
  }

  /** Header lines as they are printed. */
  function Block(hs: seq<Header>, rest: string): string {
    if hs == [] then rest else Line(hs[0].name + ": " + hs[0].value, Block(hs[1..], rest))
  }

  /** The value of the first header with this name in any case. */
  function ValueOf(hs: seq<Header>, name: string): Option<string> {
    if hs == [] then None
    else if ToLower(hs[0].name) == ToLower(name) then Some(TrimSpace(hs[0].value))
    else ValueOf(hs[1..], name)
  }

  /** With no colon in either, a printed header matches a name exactly when it is a
      spelling of it. */
  lemma PrintedMatch(n: string, value: string, name: string)
    requires ':' !in n && ':' !in name
    ensures HeaderMatch(n + ": " + value, name) <==> ToLower(n) == ToLower(name)
  {
    var line := n + ": " + value;
    assert line[|n|] == ':' && forall j :: 0 <= j < |n| ==> line[j] == n[j];
    if HeaderMatch(line, name) {
      MatchIsSpelling(line, name);
      forall j | 0 <= j < |name|
        ensures line[j] != ':'
      {
        assert Lower(line[j]) == ToLower(line[..|name|])[j] == ToLower(name)[j];
        ColonOnly(line[j]);
        ColonOnly(name[j]);
      }
      assert line[|name|] == (line[..|name|] + ":")[|name|] == ':';
      assert |name| == |n| && line[..|name|] == n;
    }
    if ToLower(n) == ToLower(name) {
      assert |n| == |name|;
      assert ToLower(line)[..|name| + 1] == ToLower(name) + ":";
    }
  }

  lemma PrintedLine(h: Header)
    requires Printable([h])
    ensures NoCrlf(h.name + ": " + h.value)
  {
    assert [h][0] == h;
    LabelledIsLine(h.name + ": ", h.value);
  }

  /** Printed headers are read back: the first of a name, whatever follows. */
  lemma {:induction false} BlockReads(hs: seq<Header>, rest: string, name: string)
    requires Printable(hs) && ':' !in name
    ensures ParseHeader(Block(hs, rest), name) == match ValueOf(hs, name) case Some(v) => v case None => ParseHeader(rest, name)
  {
    hide TrimSpace, HeaderMatch;
    if hs == [] {
    } else {
      var h, line := hs[0], hs[0].name + ": " + hs[0].value;
      PrintedLine(h);
      PrintedMatch(h.name, h.value, name);
      SplitLine(line, Block(hs[1..], rest));
      assert ([line] + Split(Block(hs[1..], rest)))[1..] == Split(Block(hs[1..], rest));
      if ToLower(h.name) == ToLower(name) {
        assert |h.name| == |ToLower(h.name)| == |name|;
        assert line[|name| + 1..] == " " + h.value;
        TrimLeadingBlank(h.value);
      } else {
        BlockReads(hs[1..], rest, name);
      }
    }
  }

  lemma BodyBehindLine(line: string, rest: string)
    requires NoCrlf(line)
    ensures BodyOf(Line(line, rest)) == if line == "" then rest else BodyOf(rest)
  {
    IndexOfLineEnd(line, rest);
    assert Line(line, rest)[|line| + 2..] == rest;
  }

  lemma {:induction false} BodyBehindBlock(hs: seq<Header>, rest: string)
    requires Printable(hs)
    ensures BodyOf(Block(hs, rest)) == BodyOf(rest)
  {
    hide BodyOf;
    if hs == [] {
    } else {
      PrintedLine(hs[0]);
      BodyBehindLine(hs[0].name + ": " + hs[0].value, Block(hs[1..], rest));
      BodyBehindBlock(hs[1..], rest);
    }
  }

  lemma BlockBody(hs: seq<Header>, body: string)
    requires Printable(hs)
    ensures BodyOf(Block(hs, Line("", body))) == body
  {
    hide BodyOf, Block;
    NoLfNoCrlf("");
    BodyBehindBlock(hs, Line("", body));
    BodyBehindLine("", body);
  }

  lemma BlockCons(h: Header, hs: seq<Header>, rest: string)
    ensures Block([h] + hs, rest) == Line(h.name + ": " + h.value, Block(hs, rest))
  {
    assert ([h] + hs)[1..] == hs;
  }

  lemma {:induction false} BlockJoin(a: seq<Header>, b: seq<Header>, rest: string)
    ensures Block(a + b, rest) == Block(a, Block(b, rest))
  {
    hide Block, Line;
    if a == [] {
      assert a + b == b;
      NoBlock(Block(b, rest));
    } else {
      BlockJoin(a[1..], b, rest);
      assert a + b == [a[0]] + (a[1..] + b) && a == [a[0]] + a[1..];
      BlockCons(a[0], a[1..] + b, rest);
      BlockCons(a[0], a[1..], Block(b, rest));
    }
  }

  lemma {:induction false} BlockTail(hs: seq<Header>, rest: string)
    ensures Block(hs, "") + rest == Block(hs, rest)
  {
    hide Block;
    NoBlock("");
    NoBlock(rest);
    if hs == [] {
      assert "" + rest == rest;
    } else {
      BlockTail(hs[1..], rest);
      assert hs == [hs[0]] + hs[1..];
      BlockCons(hs[0], hs[1..], "");
      BlockCons(hs[0], hs[1..], rest);
      LineTail(hs[0].name + ": " + hs[0].value, Block(hs[1..], ""), rest);
    }
  }

  lemma LineTail(line: string, a: string, b: string)
    ensures Line(line, a) + b == Line(line, a + b)
  {
  }

  lemma NoBlock(rest: string)
    ensures Block([], rest) == rest
  {
  }

  /** A start line: a word without a colon and a blank stand in front. */
  ghost predicate StartLine(first: string) {
    NoCrlf(first) && exists k :: 0 < k < |first| && first[k] == ' ' && forall j :: 0 <= j < k ==> first[j] != ':'
  }

  lemma VerbStarts(verb: string, tail: string)
    requires verb != "" && ':' !in verb && NoCrlf(verb + " " + tail)
    ensures StartLine(verb + " " + tail)
  {
    var first := verb + " " + tail;
    assert first[|verb|] == ' ';
    assert forall j :: 0 <= j < |verb| ==> first[j] == verb[j];
  }

  /** A start line is no header. */
  lemma StartLineMiss(first: string, rest: string, name: string)
    requires StartLine(first) && ' ' !in name
    ensures ParseHeader(Line(first, rest), name) == ParseHeader(rest, name)
  {
    hide TrimSpace;
    var k :| 0 < k < |first| && first[k] == ' ' && forall j :: 0 <= j < k ==> first[j] != ':';
    if HeaderMatch(first, name) {
      var low := ToLower(name) + ":";
      assert ToLower(first)[..|low|] == low;
      if k < |name| {
        assert ToLower(first)[k] == low[k] == Lower(name[k]);
        BlankOnly(first[k]);
        BlankOnly(name[k]);
      } else {
        assert ToLower(first)[|name|] == ':';
        ColonOnly(first[|name|]);
      }
    }
    SplitLine(first, rest);
    assert ([first] + Split(rest))[1..] == Split(rest);
  }

  lemma BlankOnly(c: char)
    ensures Lower(c) == ' ' <==> c == ' '
  {
  }

  /** The headers every message opens with, as a list. */
  function HeaderList(via: string, hops: bool, from: string, to: string, callID: string, cseq: string): seq<Header> {
    [Header("Via", via)] + (if hops then [Header("Max-Forwards", "70")] else [])
    + [Header("From", from), Header("To", to), Header("Call-ID", callID), Header("CSeq", cseq)]
  }

  lemma HeadersAreBlock(via: string, hops: bool, from: string, to: string, callID: string, cseq: string, tail: string)
    ensures Headers(via, hops, from, to, callID, cseq, tail) == Block(HeaderList(via, hops, from, to, callID, cseq), tail)
  {
    hide Block, Line;
    var h1, h2, h3, h4 := Header("From", from), Header("To", to), Header("Call-ID", callID), Header("CSeq", cseq);
    var ident, hop := [h1] + ([h2] + ([h3] + ([h4] + []))), Header("Max-Forwards", "70");
    assert "Via" + ": " == "Via: " && "From" + ": " == "From: " && "To" + ": " == "To: " && "Call-ID" + ": " == "Call-ID: ";
    assert "CSeq" + ": " == "CSeq: " && "Max-Forwards" + ": " + "70" == "Max-Forwards: 70";
    NoBlock(tail);
    BlockCons(h4, [], tail);
    BlockCons(h3, [h4] + [], tail);
    BlockCons(h2, [h3] + ([h4] + []), tail);
    BlockCons(h1, [h2] + ([h3] + ([h4] + [])), tail);
    BlockCons(hop, ident, tail);
    BlockCons(Header("Via", via), ident, tail);
    BlockCons(Header("Via", via), [hop] + ident, tail);
    assert HeaderList(via, hops, from, to, callID, cseq) == [Header("Via", via)] + if hops then [hop] + ident else ident;
  }

  /** Behind any start line the printed headers are read back, in any spelling of
      their names; every other name is looked up behind them. */
  lemma HeadersParse(first: string, via: string, hops: bool, from: string, to: string, callID: string, cseq: string, tail: string)
    requires StartLine(first)
    requires NoCrlf(via) && NoCrlf(from) && NoCrlf(to) && NoCrlf(callID) && NoCrlf(cseq)
    ensures var m := Line(first, Headers(via, hops, from, to, callID, cseq, tail));
            && ParseHeader(m, "Via") == TrimSpace(via)
            && ParseHeader(m, "From") == TrimSpace(from) && ParseHeader(m, "To") == TrimSpace(to)
            && ParseHeader(m, "Call-ID") == TrimSpace(callID) && ParseHeader(m, "CSeq") == TrimSpace(cseq)
            && (hops ==> ParseHeader(m, "Max-Forwards") == "70")
  {
    hide ParseHeader, TrimSpace, Headers;
    var m := Line(first, Headers(via, hops, from, to, callID, cseq, tail));
    var hs := HeaderList(via, hops, from, to, callID, cseq);
    HeadersAreBlock(via, hops, from, to, callID, cseq, tail);
    HeaderListPrints(via, hops, from, to, callID, cseq);
    forall name | name in {"Via", "From", "To", "Call-ID", "CSeq", "Max-Forwards"}
      ensures ValueOf(hs, name).Some? ==> ParseHeader(m, name) == ValueOf(hs, name).value
    {
      StartLineMiss(first, Block(hs, tail), name);
      BlockReads(hs, tail, name);
    }
    HeaderListValues(via, hops, from, to, callID, cseq);
  }

  lemma HeaderListPrints(via: string, hops: bool, from: string, to: string, callID: string, cseq: string)
    requires NoCrlf(via) && NoCrlf(from) && NoCrlf(to) && NoCrlf(callID) && NoCrlf(cseq)
    ensures Printable(HeaderList(via, hops, from, to, callID, cseq))
  {
    hide Printable;
    NoLfNoCrlf("70");
    PrintsOne("Via", via);
    PrintsOne("Max-Forwards", "70");
    PrintsOne("From", from);
    PrintsOne("To", to);
    PrintsOne("Call-ID", callID);
    PrintsOne("CSeq", cseq);
    var h3, h4 := Header("Call-ID", callID), Header("CSeq", cseq);
    PrintsBoth([h3], [h4]);
    PrintsBoth([Header("To", to)], [h3] + [h4]);
    PrintsBoth([Header("From", from)], [Header("To", to)] + ([h3] + [h4]));
    var ident := [Header("From", from)] + ([Header("To", to)] + ([h3] + [h4]));
    PrintsBoth([Header("Max-Forwards", "70")], ident);
    PrintsBoth([Header("Via", via)], ident);
    PrintsBoth([Header("Via", via)], [Header("Max-Forwards", "70")] + ident);
    assert HeaderList(via, hops, from, to, callID, cseq) == [Header("Via", via)] + if hops then [Header("Max-Forwards", "70")] + ident else ident;
  }

  lemma PrintsOne(name: string, value: string)
    requires name != "" && ':' !in name && '\n' !in name && NoCrlf(value)
    ensures Printable([Header(name, value)])
  {
  }

  lemma PrintsBoth(a: seq<Header>, b: seq<Header>)
    requires Printable(a) && Printable(b)
    ensures Printable(a + b)
  {
  }

  lemma ValueCons(h: Header, hs: seq<Header>, name: string)
    ensures ValueOf([h] + hs, name) == if ToLower(h.name) == ToLower(name) then Some(TrimSpace(h.value)) else ValueOf(hs, name)
  {
    assert ([h] + hs)[1..] == hs;
  }

  /** Names that differ in length or in their first letter are different. */
  lemma OtherName(a: string, b: string)
    requires |a| != |b| || (a != "" && Lower(a[0]) != Lower(b[0]))
    ensures ToLower(a) != ToLower(b)
  {
    assert a != "" && |a| == |b| ==> ToLower(a)[0] != ToLower(b)[0];
  }

  lemma HeaderListValues(via: string, hops: bool, from: string, to: string, callID: string, cseq: string)
    ensures var hs := HeaderList(via, hops, from, to, callID, cseq);
            && ValueOf(hs, "Via") == Some(TrimSpace(via)) && ValueOf(hs, "From") == Some(TrimSpace(from))
            && ValueOf(hs, "To") == Some(TrimSpace(to)) && ValueOf(hs, "Call-ID") == Some(TrimSpace(callID))
            && ValueOf(hs, "CSeq") == Some(TrimSpace(cseq)) && (hops ==> ValueOf(hs, "Max-Forwards") == Some("70"))
  {
    hide ToLower, ValueOf, TrimSpace;
    var h0, hop := Header("Via", via), Header("Max-Forwards", "70");
    var h1, h2, h3, h4 := Header("From", from), Header("To", to), Header("Call-ID", callID), Header("CSeq", cseq);
    var t4 := [h4] + [];
    var t3, t2 := [h3] + t4, [h2] + ([h3] + t4);
    var t1 := [h1] + t2;
    assert HeaderList(via, hops, from, to, callID, cseq) == [h0] + if hops then [hop] + t1 else t1;
    OtherName("Via", "From");
    OtherName("Via", "To");
    OtherName("Via", "Call-ID");
    OtherName("Via", "CSeq");
    OtherName("Via", "Max-Forwards");
    OtherName("From", "To");
    OtherName("From", "Call-ID");
    OtherName("From", "CSeq");
    OtherName("To", "Call-ID");
    OtherName("To", "CSeq");
    OtherName("Call-ID", "CSeq");
    OtherName("Max-Forwards", "From");
    OtherName("Max-Forwards", "To");
    OtherName("Max-Forwards", "Call-ID");
    OtherName("Max-Forwards", "CSeq");
    assert TrimSpace("70") == "70";
    forall name
      ensures ValueOf([h0] + t1, name) == (if ToLower("Via") == ToLower(name) then Some(TrimSpace(via)) else ValueOf(t1, name))
      ensures ValueOf([h0] + ([hop] + t1), name)
              == (if ToLower("Via") == ToLower(name) then Some(TrimSpace(via))
                  else if ToLower("Max-Forwards") == ToLower(name) then Some(TrimSpace("70")) else ValueOf(t1, name))
      ensures ValueOf(t1, name) == (if ToLower("From") == ToLower(name) then Some(TrimSpace(from)) else ValueOf(t2, name))
      ensures ValueOf(t2, name) == (if ToLower("To") == ToLower(name) then Some(TrimSpace(to)) else ValueOf(t3, name))
      ensures ValueOf(t3, name) == (if ToLower("Call-ID") == ToLower(name) then Some(TrimSpace(callID)) else ValueOf(t4, name))
      ensures ValueOf(t4, name) == (if ToLower("CSeq") == ToLower(name) then Some(TrimSpace(cseq)) else ValueOf([], name))
    {
      ValueCons(h0, t1, name);
      ValueCons(h0, [hop] + t1, name);
      ValueCons(hop, t1, name);
      ValueCons(h1, t2, name);
      ValueCons(h2, t3, name);
      ValueCons(h3, t4, name);
      ValueCons(h4, [], name);
    }
  }

  /** The names of headers that can stand behind the ones every message opens with. */
  predicate IsOther(name: string) {
    name in {"Contact", "Allow", "Content-Type", "Expires", "Content-Length", "P-Asserted-Identity", "Remote-Party-ID"}
  }

  lemma OtherIsName(name: string)
    requires IsOther(name)
    ensures ' ' !in name && ':' !in name
  {
  }

  lemma SecondLetter(a: string, b: string)
    requires |a| > 1 && |b| > 1 && Lower(a[1]) != Lower(b[1])
    ensures ToLower(a) != ToLower(b)
  {
    assert |a| == |b| ==> ToLower(a)[1] != ToLower(b)[1];
  }

  lemma NoDialogName(via: string, hops: bool, from: string, to: string, callID: string, cseq: string, name: string)
    requires IsOther(name)
    ensures ValueOf(HeaderList(via, hops, from, to, callID, cseq), name).None?
  {
    hide ToLower, TrimSpace, ValueOf;
    OtherName("Via", name);
    OtherName("Max-Forwards", name);
    OtherName("From", name);
    OtherName("To", name);
    SecondLetter("Call-ID", name);
    OtherName("CSeq", name);
    var h0, hop := Header("Via", via), Header("Max-Forwards", "70");
    var h1, h2, h3, h4 := Header("From", from), Header("To", to), Header("Call-ID", callID), Header("CSeq", cseq);
    var ident := [h1] + ([h2] + ([h3] + ([h4] + [])));
    assert HeaderList(via, hops, from, to, callID, cseq) == [h0] + if hops then [hop] + ident else ident;
    NoValue(name);
    ValueCons(h4, [], name);
    ValueCons(h3, [h4] + [], name);
    ValueCons(h2, [h3] + ([h4] + []), name);
    ValueCons(h1, [h2] + ([h3] + ([h4] + [])), name);
    ValueCons(hop, ident, name);
    ValueCons(h0, ident, name);
    ValueCons(h0, [hop] + ident, name);
  }

  lemma NoValue(name: string)
    ensures ValueOf([], name).None?
  {
  }

  /** Any other name is looked up behind the headers every message opens with, and so
      is the body. */
  lemma BehindHeaders(first: string, via: string, hops: bool, from: string, to: string, callID: string, cseq: string, tail: string)
    requires StartLine(first)
    requires NoCrlf(via) && NoCrlf(from) && NoCrlf(to) && NoCrlf(callID) && NoCrlf(cseq)
    ensures var m := Line(first, Headers(via, hops, from, to, callID, cseq, tail));
            && (forall name :: IsOther(name) ==> ParseHeader(m, name) == ParseHeader(tail, name))
            && BodyOf(m) == BodyOf(tail)
  {
    hide ParseHeader, TrimSpace, Headers, HeaderList, BodyOf, IsOther, Line, Block, StartLine, Printable, ValueOf;
    var m, hs := Line(first, Headers(via, hops, from, to, callID, cseq, tail)), HeaderList(via, hops, from, to, callID, cseq);
    HeadersAreBlock(via, hops, from, to, callID, cseq, tail);
    HeaderListPrints(via, hops, from, to, callID, cseq);
    forall name | IsOther(name)
      ensures ParseHeader(m, name) == ParseHeader(tail, name)
    {
      OtherIsName(name);
      NoDialogName(via, hops, from, to, callID, cseq, name);
      StartLineMiss(first, Block(hs, tail), name);
      BlockReads(hs, tail, name);
    }
    StartIsNotEmpty(first);
    BodyBehindLine(first, Block(hs, tail));
    BodyBehindBlock(hs, tail);
  }

  lemma StartIsNotEmpty(first: string)
    requires StartLine(first)
    ensures first != "" && NoCrlf(first)
  {
  }

  lemma NoBodyReads()
    ensures ParseHeader(NO_BODY, "Content-Length") == "0" && BodyOf(NO_BODY) == ""
  {
    hide ParseHeader, TrimSpace, BodyOf;
    var h := Header("Content-Length", "0");
    NoLfNoCrlf("0");
    PrintsOne("Content-Length", "0");
    assert "Content-Length" + ": " + "0" == "Content-Length: 0" && [h] + [] == [h];
    BlockCons(h, [], Line("", ""));
    NoBlock(Line("", ""));
    ValueCons(h, [], "Content-Length");
    BlockReads([h], Line("", ""), "Content-Length");
    BlockBody([h], "");
  }

  /** What a request inside a dialog, or a CANCEL, reads back as: the method, in the
      request line and in the CSeq, and everything it was printed from. */
  lemma RequestReads(verb: string, uri: string, localIP: string, branch: string, from: string, to: string, callID: string, number: int)
    requires verb in {"CANCEL", "BYE"} && NoCrlf(uri) && IpText(localIP) && NoCrlf(branch) && IsInt64(number)
    requires NoCrlf(from) && NoCrlf(to) && NoCrlf(callID) && Trimmed(from) && Trimmed(to) && Trimmed(callID)
    ensures var m := Line(verb + " " + uri + " SIP/2.0",
                          Headers(ViaText(localIP, branch), true, from, to, callID, Itoa(number) + " " + verb, NO_BODY));
            && MethodOf(m) == verb && (uri != "" && NoSpace(uri) ==> RequestUriOf(m) == uri)
            && ParseHeader(m, "Via") == ViaText(localIP, branch) && ParseHeader(m, "From") == from && ParseHeader(m, "To") == to
            && ParseHeader(m, "Call-ID") == callID && ParseHeader(m, "CSeq") == Itoa(number) + " " + verb
            && CSeqNumber(ParseHeader(m, "CSeq")) == number && CSeqMethod(ParseHeader(m, "CSeq")) == verb
            && ParseHeader(m, "Max-Forwards") == "70" && ParseHeader(m, "Content-Length") == "0" && BodyOf(m) == ""
  {
    hide ParseHeader, TrimSpace, RequestUriOf, MethodOf, BranchOfVia, CutBranch, CSeqNumber, CSeqMethod, Itoa, Headers, ViaText, IpText,
      BodyOf;
    var first, cseq := verb + " " + uri + " SIP/2.0", Itoa(number) + " " + verb;
    var via, h := ViaText(localIP, branch), Headers(ViaText(localIP, branch), true, from, to, callID, cseq, NO_BODY);
    ViaTextParse(localIP, branch);
    CSeqTextParse(number, verb);
    VerbLine(verb, uri);
    assert first == verb + " " + (uri + " SIP/2.0");
    VerbStarts(verb, uri + " SIP/2.0");
    MethodRead(verb, uri + " SIP/2.0", h);
    if uri != "" && NoSpace(uri) {
      RequestLineParse(verb, uri, h);
    }
    HeadersParse(first, via, true, from, to, callID, cseq, NO_BODY);
    BehindHeaders(first, via, true, from, to, callID, cseq, NO_BODY);
    NoBodyReads();
  }

  lemma VerbLine(verb: string, uri: string)
    requires verb != "" && NoSpace(verb) && NoCrlf(uri)
    ensures NoCrlf(verb + " " + uri + " SIP/2.0") && NoCrlf(verb + " " + (uri + " SIP/2.0"))
  {
    NoLfNoCrlf(verb + " ");
    NoLfNoCrlf(" SIP/2.0");
    NoCrlfConcat(verb + " ", uri);
    NoCrlfConcat(verb + " " + uri, " SIP/2.0");
    assert verb + " " + (uri + " SIP/2.0") == verb + " " + uri + " SIP/2.0";
  }

  /** An address as net.IP prints it. */
  ghost predicate IpText(s: string) {
    s != "" && forall c :: c in s ==> IsDigit(c) || 'a' <= c <= 'f' || c == '.' || c == ':'
  }

  lemma ViaTextParse(localIP: string, branch: string)
    requires IpText(localIP) && NoCrlf(branch)
    ensures NoCrlf(ViaText(localIP, branch)) && Trimmed(ViaText(localIP, branch))
    ensures BranchOfVia(ViaText(localIP, branch)) == CutBranch(branch + ";rport")
  {
    var pre := "SIP/2.0/UDP " + localIP + ":5060;";
    var via := ViaText(localIP, branch);
    assert via == (pre + BRANCH) + (branch + ";rport");
    NoLfNoCrlf(pre + BRANCH);
    NoLfNoCrlf(";rport");
    NoCrlfConcat(branch, ";rport");
    NoCrlfConcat(pre + BRANCH, branch + ";rport");
    assert via[|pre|..|pre| + |BRANCH|] == BRANCH;
    assert At(via, BRANCH, |pre|);
    forall i | i < |pre|
      ensures !At(via, BRANCH, i)
    {
      BranchNotBefore(via, pre, i);
    }
    IndexIs(via, BRANCH, |pre|);
    assert via[|pre| + |BRANCH|..] == branch + ";rport";
  }

  lemma BranchNotBefore(via: string, pre: string, i: int)
    requires |pre| < |via| && via[..|pre|] == pre && via[|pre|] == 'b'
    requires 'r' !in pre && i < |pre|
    ensures !At(via, BRANCH, i)
  {
    if 0 <= i && i + |BRANCH| <= |via| {
      assert via[i..i + |BRANCH|][1] == via[i + 1];
      assert via[i + 1] != 'r';
    }
  }

  ghost predicate NoStop(s: string) {
    forall i :: 0 <= i < |s| ==> s[i] !in BRANCH_STOP
  }

  lemma CutBranchShape(rest: string)
    ensures NoStop(CutBranch(rest)) && Trimmed(CutBranch(rest))
    ensures NoCrlf(rest) ==> NoCrlf(CutBranch(rest))
  {
    hide TrimSpace;
    var j := IndexAny(rest, BRANCH_STOP);
    var cut := if j < 0 then rest else rest[..j];
    assert NoStop(cut);
    var k := TrimSpaceIsSlice(cut);
    assert forall i :: 0 <= i < |TrimSpace(cut)| ==> TrimSpace(cut)[i] == cut[k + i];
    if NoCrlf(rest) {
      NoCrlfTake(rest, |cut|);
      NoCrlfTrim(cut);
    }
  }

  /** Cutting a branch that holds no delimiter keeps it. */
  lemma CutBranchKeeps(b: string)
    requires NoStop(b) && Trimmed(b)
    ensures CutBranch(b + ";rport") == b
  {
    hide TrimSpace;
    var s := b + ";rport";
    assert s[|b|] == ';';
    assert forall i :: 0 <= i < |b| ==> s[i] == b[i];
    IndexAnyIs(s, BRANCH_STOP, |b|);
    assert s[..|b|] == b;
  }

  /** The branch is what stands between the first "branch=" and the next semicolon,
      comma, blank or tab, or the end. */
  lemma BranchReads(before: string, branch: string, stop: char, after: string)
    requires stop in {';', ',', ' ', '\t'} && Trimmed(branch)
    requires forall i :: 0 <= i < |branch| ==> branch[i] !in {';', ',', ' ', '\t'}
    requires forall i :: i < |before| ==> !At(before + "branch=" + branch, "branch=", i)
    requires forall i :: i < |before| ==> !At(before + "branch=" + branch + [stop] + after, "branch=", i)
    ensures BranchOfVia(before + "branch=" + branch) == branch
    ensures BranchOfVia(before + "branch=" + branch + [stop] + after) == branch
  {
    hide TrimSpace;
    FoundAt(before, branch);
    assert before + "branch=" + branch + [stop] + after == before + "branch=" + (branch + [stop] + after);
    FoundAt(before, branch + [stop] + after);
    var rest := branch + [stop] + after;
    assert rest[|branch|] == stop && rest[..|branch|] == branch;
    assert forall i :: 0 <= i < |branch| ==> rest[i] == branch[i];
    IndexAnyIs(rest, BRANCH_STOP, |branch|);
    assert IndexAny(branch, BRANCH_STOP) < 0;
  }

  lemma FoundAt(before: string, rest: string)
    requires forall i :: i < |before| ==> !At(before + "branch=" + rest, "branch=", i)
    ensures IndexOf(before + "branch=" + rest, "branch=") == |before|
    ensures (before + "branch=" + rest)[|before| + 7..] == rest
  {
    var s := before + "branch=" + rest;
    assert s[|before|..|before| + 7] == "branch=";
    assert At(s, "branch=", |before|);
    IndexIs(s, "branch=", |before|);
  }

  lemma NoBranchReads(via: string)
    requires forall i :: !At(via, "branch=", i)
    ensures BranchOfVia(via) == ""
  {
  }

  /** A CSeq that does not start with a number counts as zero. */
  lemma NumberlessCSeqIsZero(word: string, rest: string)
    requires word != "" && NoSpace(word) && Atoi(word).None?
    ensures CSeqNumber(word + " " + rest) == 0 && CSeqNumber("") == 0
  {
    hide Atoi, Fields;
    FieldsOfWord(word, ' ', rest);
    assert word + [' '] + rest == word + " " + rest;
    NoWords();
  }

  lemma NoWords()
    ensures Fields("") == []
  {
  }

  lemma BranchOfViaShape(via: string)
    requires NoCrlf(via)
    ensures NoCrlf(BranchOfVia(via)) && NoStop(BranchOfVia(via)) && Trimmed(BranchOfVia(via))
  {
    hide CutBranch;
    var i := IndexOf(via, BRANCH);
    if i < 0 {
      NoLfNoCrlf("");
    } else {
      NoCrlfDrop(via, i + |BRANCH|);
      CutBranchShape(via[i + |BRANCH|..]);
    }
  }

  lemma FirstLineOf(first: string, rest: string)
    requires NoCrlf(first)
    ensures MethodOf(Line(first, rest)) == (if Fields(first) == [] then "" else Fields(first)[0])
    ensures RequestUriOf(Line(first, rest)) == (if |Fields(first)| < 2 then "" else Fields(first)[1])
  {
    hide Fields, IndexOf;
    IndexOfLineEnd(first, rest);
    assert Line(first, rest)[..|first|] == first;
  }

  /** The method of a printed request, whatever stands behind it. */
  lemma MethodRead(verb: string, tail: string, rest: string)
    requires verb != "" && NoSpace(verb) && NoCrlf(verb + " " + tail)
    ensures MethodOf(Line(verb + " " + tail, rest)) == verb
  {
    hide Fields, MethodOf;
    FirstLineOf(verb + " " + tail, rest);
    FieldsOfWord(verb, ' ', tail);
    assert verb + [' '] + tail == verb + " " + tail;
  }

  lemma RequestLineFields(verb: string, uri: string)
    requires verb != "" && NoSpace(verb) && uri != "" && NoSpace(uri)
    ensures |Fields(verb + " " + uri + " SIP/2.0")| >= 2
    ensures Fields(verb + " " + uri + " SIP/2.0")[0] == verb && Fields(verb + " " + uri + " SIP/2.0")[1] == uri
  {
    hide Fields;
    FieldsOfWord(uri, ' ', "SIP/2.0");
    FieldsOfWord(verb, ' ', uri + " SIP/2.0");
    assert uri + [' '] + "SIP/2.0" == uri + " SIP/2.0";
    assert verb + [' '] + (uri + " SIP/2.0") == verb + " " + uri + " SIP/2.0";
  }

  lemma RequestLineParse(verb: string, uri: string, rest: string)
    requires verb != "" && NoSpace(verb) && uri != "" && NoSpace(uri)
    ensures NoCrlf(verb + " " + uri + " SIP/2.0")
    ensures RequestUriOf(Line(verb + " " + uri + " SIP/2.0", rest)) == uri && MethodOf(Line(verb + " " + uri + " SIP/2.0", rest)) == verb
  {
    hide Fields, RequestUriOf, MethodOf;
    var first := verb + " " + uri + " SIP/2.0";
    NoLfNoCrlf(first);
    FirstLineOf(first, rest);
    RequestLineFields(verb, uri);
  }

  lemma CSeqTextParse(n: int, verb: string)
    requires IsInt64(n) && verb != "" && NoSpace(verb)
    ensures NoCrlf(Itoa(n) + " " + verb) && Trimmed(Itoa(n) + " " + verb)
    ensures CSeqNumber(Itoa(n) + " " + verb) == n && CSeqMethod(Itoa(n) + " " + verb) == verb
  {
    hide Fields, Itoa, Atoi;
    ItoaShape(n);
    NoLfNoCrlf(Itoa(n) + " " + verb);
    assert Itoa(n) + " " + verb == Itoa(n) + [' '] + verb;
    FieldsOfWord(Itoa(n), ' ', verb);
    LastWord(verb);
    AtoiItoa(n);
  }

  lemma LastWord(w: string)
    requires w != "" && NoSpace(w)
    ensures Fields(w) == [w]
  {
    assert TrimLeft(w) == w;
    assert WordLen(w) == |w|;
    assert w[..|w|] == w && w[|w|..] == "";
  }
}
