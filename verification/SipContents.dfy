/** What the gateway's messages carry besides the headers that identify them: the
    status and body of a response, and the offer and the caller's identity in the
    INVITE that rings a client. */
module SipContents {
  import opened Text
  import opened SipMessages
  import opened SipDialogs
  import opened SipRinging

  // ---------------------------------------------------------------- any message

  /** A message of the gateway as its start line, one list of headers and a body. */
  function Message(first: string, hs: seq<Header>, body: string): string {
    Line(first, Block(hs, Line("", body)))
  }

  lemma MessageReads(first: string, hs: seq<Header>, body: string)
    requires StartLine(first) && Printable(hs)
    ensures BodyOf(Message(first, hs, body)) == body
    ensures forall name :: IsOther(name) && ValueOf(hs, name).Some? ==> ParseHeader(Message(first, hs, body), name) == ValueOf(hs, name).value
  {
    hide ParseHeader, BodyOf, Block, Printable, ValueOf, IsOther, StartLine, Line;
    StartIsNotEmpty(first);
    BodyBehindLine(first, Block(hs, Line("", body)));
    BlockBody(hs, body);
    forall name | IsOther(name) && ValueOf(hs, name).Some?
      ensures ParseHeader(Message(first, hs, body), name) == ValueOf(hs, name).value
    {
      OtherIsName(name);
      StartLineMiss(first, Block(hs, Line("", body)), name);
      BlockReads(hs, Line("", body), name);
    }
  }

  lemma {:induction false} ValueJoin(a: seq<Header>, b: seq<Header>, name: string)
    ensures ValueOf(a + b, name) == if ValueOf(a, name).Some? then ValueOf(a, name) else ValueOf(b, name)
  {
    hide ToLower, TrimSpace;
    if a == [] {
      assert a + b == b;
    } else {
      assert (a + b)[1..] == a[1..] + b;
      ValueJoin(a[1..], b, name);
    }
  }

  lemma OneValue(name: string, value: string)
    requires Trimmed(value)
    ensures ValueOf([Header(name, value)], name) == Some(value)
  {
    hide TrimSpace;
  }

  lemma WordIsTrimmed(w: string)
    requires NoSpace(w)
    ensures Trimmed(w) && NoCrlf(w)
  {
    NoLfNoCrlf(w);
  }

  // ---------------------------------------------------------------- responses

  /** The headers of a response: the dialog's, the extra ones, the length of the body. */
  function ResponseHeaders(req: string, extra: seq<Header>, length: nat, tag: string, minted: string): seq<Header> {
    DialogHeaders(req, tag, minted) + (extra + [Header("Content-Length", Itoa(length))])
  }

  function DialogHeaders(req: string, tag: string, minted: string): seq<Header> {
    HeaderList(ParseHeader(req, "Via"), false, ParseHeader(req, "From"),
               ParseHeader(req, "To") + ResponseTag(ParseHeader(req, "To"), tag, minted),
               ParseHeader(req, "Call-ID"), ParseHeader(req, "CSeq"))
  }

  /** What a response says beside what it echoes: its status, each extra header, the
      length of its body, and the body. */
  lemma ResponseReads(req: string, code: int, reason: string, extra: seq<Header>, body: string, tag: string, minted: string)
    requires NoCrlf(reason) && NoSpace(tag) && NoSpace(minted) && IsInt64(code) && Printable(extra)
    ensures var resp := BuildResponse(req, code, reason, Block(extra, ""), body, tag, minted);
            && MethodOf(resp) == "SIP/2.0" && StatusOf(resp) == Some(code)
            && BodyOf(resp) == body
            && (ValueOf(extra, "Content-Length").None? ==> ParseHeader(resp, "Content-Length") == Itoa(|body|))
            && forall name :: IsOther(name) && ValueOf(extra, name).Some? ==> ParseHeader(resp, name) == ValueOf(extra, name).value
  {
    hide ParseHeader, Itoa, Block, Printable, BodyOf, MethodOf, RequestUriOf, StatusOf, ValueOf, IsOther, BuildResponse, DialogHeaders,
      StartLine, Line;
    var first, hs := "SIP/2.0 " + Itoa(code) + " " + reason, ResponseHeaders(req, extra, |body|, tag, minted);
    StatusLine(code, reason);
    StatusReads(code, reason, Block(hs, Line("", body)));
    ResponseIsMessage(req, code, reason, extra, body, tag, minted);
    ResponseHeadersPrint(req, extra, |body|, tag, minted);
    MessageReads(first, hs, body);
    LengthIsOther("Content-Length");
    ItoaShape(|body|);
    WordIsTrimmed(Itoa(|body|));
    OneValue("Content-Length", Itoa(|body|));
    forall name | IsOther(name)
      ensures ValueOf(hs, name) == if ValueOf(extra, name).Some? then ValueOf(extra, name) else ValueOf([Header("Content-Length", Itoa(|body|))], name)
    {
      NoneInDialog(req, tag, minted, name);
      ValueJoin(DialogHeaders(req, tag, minted), extra + [Header("Content-Length", Itoa(|body|))], name);
      ValueJoin(extra, [Header("Content-Length", Itoa(|body|))], name);
    }
  }

  lemma LengthIsOther(name: string)
    requires name == "Content-Length"
    ensures IsOther(name)
  {
  }

  lemma NoneInDialog(req: string, tag: string, minted: string, name: string)
    requires IsOther(name)
    ensures ValueOf(DialogHeaders(req, tag, minted), name).None?
  {
    hide ParseHeader, ResponseTag, HeaderList, IsOther, ValueOf;
    var to := ParseHeader(req, "To");
    NoDialogName(ParseHeader(req, "Via"), false, ParseHeader(req, "From"), to + ResponseTag(to, tag, minted),
                 ParseHeader(req, "Call-ID"), ParseHeader(req, "CSeq"), name);
  }

  lemma ResponseIsMessage(req: string, code: int, reason: string, extra: seq<Header>, body: string, tag: string, minted: string)
    ensures BuildResponse(req, code, reason, Block(extra, ""), body, tag, minted)
            == Message("SIP/2.0 " + Itoa(code) + " " + reason, ResponseHeaders(req, extra, |body|, tag, minted), body)
  {
    hide ParseHeader, Itoa, Headers, Block, HeaderList, ResponseTag;
    var to, h := ParseHeader(req, "To"), Header("Content-Length", Itoa(|body|));
    var tail := Block(extra, "") + Line("Content-Length: " + Itoa(|body|), Line("", body));
    HeadersAreBlock(ParseHeader(req, "Via"), false, ParseHeader(req, "From"), to + ResponseTag(to, tag, minted),
                    ParseHeader(req, "Call-ID"), ParseHeader(req, "CSeq"), tail);
    assert "Content-Length" + ": " == "Content-Length: " && [h] + [] == [h];
    BlockCons(h, [], Line("", body));
    NoBlock(Line("", body));
    BlockTail(extra, Block([h], Line("", body)));
    BlockJoin(extra, [h], Line("", body));
    BlockJoin(DialogHeaders(req, tag, minted), extra + [h], Line("", body));
  }

  lemma ResponseHeadersPrint(req: string, extra: seq<Header>, length: nat, tag: string, minted: string)
    requires NoSpace(tag) && NoSpace(minted) && Printable(extra)
    ensures Printable(ResponseHeaders(req, extra, length, tag, minted))
  {
    hide ParseHeader, Itoa, HeaderList, Printable, Contains;
    ParsedIsLine(req, "Via");
    ParsedIsLine(req, "From");
    ParsedIsLine(req, "To");
    ParsedIsLine(req, "Call-ID");
    ParsedIsLine(req, "CSeq");
    var to := ParseHeader(req, "To");
    SuffixWord(to, ResponseTag(to, tag, minted));
    HeaderListPrints(ParseHeader(req, "Via"), false, ParseHeader(req, "From"), to + ResponseTag(to, tag, minted),
                     ParseHeader(req, "Call-ID"), ParseHeader(req, "CSeq"));
    ItoaShape(length);
    WordIsTrimmed(Itoa(length));
    PrintsOne("Content-Length", Itoa(length));
    PrintsBoth(extra, [Header("Content-Length", Itoa(length))]);
    PrintsBoth(DialogHeaders(req, tag, minted), extra + [Header("Content-Length", Itoa(length))]);
  }

  /** The final error of an unanswered dial says 480 and has no body. */
  lemma UnansweredDialGets480(msg: string, remote: string, user: string, localTag: string, newCallID: string,
                              state: CallState, localIP: string, nonce: string)
    requires msg != "" && ParseHeader(msg, "Call-ID") != "" && state in {Init, Dialing} && NoSpace(localTag)
    ensures var end := TeardownMessage(Outbound, state, localTag, OutboundPlan(msg, remote, user, localTag, newCallID), localIP, nonce);
            && end.Final480? && StatusOf(end.text) == Some(480)
            && BodyOf(end.text) == "" && ParseHeader(end.text, "Content-Length") == "0"
  {
    hide ParseHeader, CSeqNumber, ContactUri, Contains, BuildResponse, StatusOf, BodyOf, MethodOf, IsOther, Block;
    NoLfNoCrlf("Temporarily Unavailable");
    NoBlock("");
    NoValue("Content-Length");
    assert Itoa(0) == "0";
    ResponseReads(msg, 480, "Temporarily Unavailable", [], "", ";tag=" + localTag, "");
  }

  // ---------------------------------------------------------------- the INVITE that rings a client

  function CallerList(peer: string, local: string): seq<Header> {
    var id := "\"" + peer + "\" <sip:" + peer + "@" + local + ">";
    if peer == "" then [] else [Header("P-Asserted-Identity", id)] + [Header("Remote-Party-ID", id + ";party=calling;screen=yes")]
  }

  function InviteList(peer: string, local: string, length: nat): seq<Header> {
    [Header("Contact", "<sip:cellbridge@" + local + ":5060>")]
    + ([Header("Max-Forwards", "70")]
       + (CallerList(peer, local) + BodyHeaders(length)))
  }

  lemma InviteTailIsBlock(peer: string, local: string, sdp: string)
    ensures InviteTail(local, CallerHeaders(peer, local), sdp) == Block(InviteList(peer, local, |sdp|), Line("", sdp))
  {
    hide Block, Itoa, CallerList, CallerHeaders, Line;
    var h1, h2 := Header("Contact", "<sip:cellbridge@" + local + ":5060>"), Header("Max-Forwards", "70");
    var h3, h4 := Header("Content-Type", "application/sdp"), Header("Content-Length", Itoa(|sdp|));
    var end := Line("", sdp);
    assert h1.name + ": " + h1.value == "Contact: <sip:cellbridge@" + local + ":5060>";
    assert h2.name + ": " + h2.value == "Max-Forwards: 70";
    BodyIsBlock(|sdp|, end);
    CallerHeadersAreBlock(peer, local);
    BlockTail(CallerList(peer, local), Block([h3] + [h4], end));
    BlockJoin(CallerList(peer, local), [h3] + [h4], end);
    BlockCons(h2, CallerList(peer, local) + ([h3] + [h4]), end);
    BlockCons(h1, [h2] + (CallerList(peer, local) + ([h3] + [h4])), end);
  }

  lemma BodyIsBlock(length: nat, end: string)
    ensures Block([Header("Content-Type", "application/sdp")] + [Header("Content-Length", Itoa(length))], end)
            == Line("Content-Type: application/sdp", Line("Content-Length: " + Itoa(length), end))
  {
    hide Block, Itoa, Line;
    var h3, h4 := Header("Content-Type", "application/sdp"), Header("Content-Length", Itoa(length));
    assert h3.name + ": " + h3.value == "Content-Type: application/sdp";
    assert h4.name + ": " + h4.value == "Content-Length: " + Itoa(length) && [h4] + [] == [h4];
    NoBlock(end);
    BlockCons(h4, [], end);
    BlockCons(h3, [h4], end);
  }

  lemma CallerHeadersAreBlock(peer: string, local: string)
    ensures CallerHeaders(peer, local) == Block(CallerList(peer, local), "")
  {
    hide Block, Line;
    var id := "\"" + peer + "\" <sip:" + peer + "@" + local + ">";
    var h1, h2 := Header("P-Asserted-Identity", id), Header("Remote-Party-ID", id + ";party=calling;screen=yes");
    NoBlock("");
    BlockCons(h2, [], "");
    BlockCons(h1, [h2], "");
    assert [h2] + [] == [h2];
    assert h1.name + ": " + h1.value == "P-Asserted-Identity: " + id;
    assert h2.name + ": " + h2.value == "Remote-Party-ID: " + id + ";party=calling;screen=yes";
  }

  lemma CallerListPrints(peer: string, local: string)
    requires NoCrlf(peer) && IpText(local)
    ensures Printable(CallerList(peer, local))
    ensures peer != "" ==>
              && NoCrlf(CallerFrom(peer, local) + ";party=calling;screen=yes") && Trimmed(CallerFrom(peer, local) + ";party=calling;screen=yes")
  {
    hide NoCrlf, Printable, IpText;
    CallerFromIsLine(peer, local);
    IdentitySuffix(CallerFrom(peer, local), ";party=calling;screen=yes");
    if peer != "" {
      PrintsOne("P-Asserted-Identity", CallerFrom(peer, local));
      PrintsOne("Remote-Party-ID", CallerFrom(peer, local) + ";party=calling;screen=yes");
      PrintsBoth([Header("P-Asserted-Identity", CallerFrom(peer, local))],
                 [Header("Remote-Party-ID", CallerFrom(peer, local) + ";party=calling;screen=yes")]);
    } else {
      NothingPrints();
    }
  }

  lemma IdentitySuffix(from: string, suffix: string)
    requires NoCrlf(from) && Trimmed(from) && suffix == ";party=calling;screen=yes"
    ensures NoCrlf(from + suffix) && Trimmed(from + suffix)
  {
    var a, b := ";party=calling", ";screen=yes";
    assert from + suffix == from + a + b;
    SuffixWord(from, a);
    SuffixWord(from + a, b);
  }

  lemma NothingPrints()
    ensures Printable([])
  {
  }

  lemma InviteListPrints(peer: string, local: string, length: nat)
    requires NoCrlf(peer) && IpText(local)
    ensures Printable(InviteList(peer, local, length))
  {
    hide Printable, CallerList, Itoa, NoCrlf;
    ContactIsLine(local);
    NoLfNoCrlf("70");
    NoLfNoCrlf("application/sdp");
    ItoaShape(length);
    WordIsTrimmed(Itoa(length));
    CallerListPrints(peer, local);
    var h1, h2 := Header("Contact", "<sip:cellbridge@" + local + ":5060>"), Header("Max-Forwards", "70");
    var h3, h4 := Header("Content-Type", "application/sdp"), Header("Content-Length", Itoa(length));
    PrintsOne(h1.name, h1.value);
    PrintsOne(h2.name, h2.value);
    PrintsOne(h3.name, h3.value);
    PrintsOne(h4.name, h4.value);
    PrintsBoth([h3], [h4]);
    PrintsBoth(CallerList(peer, local), [h3] + [h4]);
    PrintsBoth([h2], CallerList(peer, local) + ([h3] + [h4]));
    PrintsBoth([h1], [h2] + (CallerList(peer, local) + ([h3] + [h4])));
  }

  lemma ContactIsLine(local: string)
    requires IpText(local)
    ensures NoCrlf("<sip:cellbridge@" + local + ":5060>") && Trimmed("<sip:cellbridge@" + local + ":5060>")
  {
    IpIsWord(local);
    NoLfNoCrlf("<sip:cellbridge@" + local + ":5060>");
  }

  /** The values of the INVITE's own headers. */
  lemma InviteListValues(peer: string, local: string, length: nat)
    requires NoCrlf(peer) && IpText(local)
    ensures var hs := InviteList(peer, local, length);
            && ValueOf(hs, "Contact") == Some("<sip:cellbridge@" + local + ":5060>")
            && ValueOf(hs, "Content-Type") == Some("application/sdp") && ValueOf(hs, "Content-Length") == Some(Itoa(length))
            && (peer != "" ==>
                  && ValueOf(hs, "P-Asserted-Identity") == Some(CallerFrom(peer, local))
                  && ValueOf(hs, "Remote-Party-ID") == Some(CallerFrom(peer, local) + ";party=calling;screen=yes"))
  {
    hide ValueOf, ToLower, TrimSpace, Itoa, IpText, NoCrlf, CallerFrom, CallerList;
    ContactIsLine(local);
    Names();
    var h1, h2 := Header("Contact", "<sip:cellbridge@" + local + ":5060>"), Header("Max-Forwards", "70");
    var rest := CallerList(peer, local) + BodyHeaders(length);
    forall name
      ensures ValueOf([h2] + rest, name) == (if ToLower("Max-Forwards") == ToLower(name) then Some(TrimSpace("70")) else ValueOf(rest, name))
      ensures ValueOf([h1] + ([h2] + rest), name) == (if ToLower("Contact") == ToLower(name) then Some(h1.value) else ValueOf([h2] + rest, name))
    {
      ValueCons(h2, rest, name);
      ValueCons(h1, [h2] + rest, name);
    }
    BodyHeaderValues(length);
    if peer == "" {
      CallerListIs(peer, local);
      assert rest == BodyHeaders(length);
    } else {
      CallerValues(peer, local, length);
    }
  }

  function BodyHeaders(length: nat): seq<Header> {
    [Header("Content-Type", "application/sdp")] + [Header("Content-Length", Itoa(length))]
  }

  lemma BodyHeaderValues(length: nat)
    ensures ValueOf(BodyHeaders(length), "Content-Type") == Some("application/sdp")
    ensures ValueOf(BodyHeaders(length), "Content-Length") == Some(Itoa(length))
  {
    hide ValueOf, ToLower, TrimSpace, Itoa;
    ItoaShape(length);
    WordIsTrimmed(Itoa(length));
    TypeIsTrimmed("application/sdp");
    Names();
    var h3, h4 := Header("Content-Type", "application/sdp"), Header("Content-Length", Itoa(length));
    ValueCons(h3, [h4], "Content-Type");
    ValueCons(h3, [h4], "Content-Length");
    OneValue("Content-Length", Itoa(length));
  }

  lemma CallerValues(peer: string, local: string, length: nat)
    requires NoCrlf(peer) && IpText(local) && peer != ""
    ensures var hs := CallerList(peer, local) + BodyHeaders(length);
            && ValueOf(hs, "P-Asserted-Identity") == Some(CallerFrom(peer, local))
            && ValueOf(hs, "Remote-Party-ID") == Some(CallerFrom(peer, local) + ";party=calling;screen=yes")
            && ValueOf(hs, "Content-Type") == ValueOf(BodyHeaders(length), "Content-Type")
            && ValueOf(hs, "Content-Length") == ValueOf(BodyHeaders(length), "Content-Length")
  {
    hide *;
    Names();
    CallerValue(peer, local, BodyHeaders(length), "P-Asserted-Identity");
    CallerValue(peer, local, BodyHeaders(length), "Remote-Party-ID");
    CallerValue(peer, local, BodyHeaders(length), "Content-Type");
    CallerValue(peer, local, BodyHeaders(length), "Content-Length");
  }

  lemma CallerValue(peer: string, local: string, end: seq<Header>, name: string)
    requires NoCrlf(peer) && IpText(local) && peer != ""
    ensures var id := CallerFrom(peer, local);
            ValueOf(CallerList(peer, local) + end, name)
            == if ToLower("P-Asserted-Identity") == ToLower(name) then Some(id)
               else if ToLower("Remote-Party-ID") == ToLower(name) then Some(id + ";party=calling;screen=yes")
               else ValueOf(end, name)
  {
    hide *;
    CallerListPrints(peer, local);
    CallerFromIsLine(peer, local);
    CallerListIs(peer, local);
    var id := CallerFrom(peer, local);
    var c1, c2 := Header("P-Asserted-Identity", id), Header("Remote-Party-ID", id + ";party=calling;screen=yes");
    assert CallerList(peer, local) + end == [c1] + ([c2] + end);
    ValueCons(c1, [c2] + end, name);
    ValueCons(c2, end, name);
    AlreadyTrimmed(id);
    AlreadyTrimmed(c2.value);
  }

  lemma AlreadyTrimmed(s: string)
    requires Trimmed(s)
    ensures TrimSpace(s) == s
  {
  }

  lemma TypeIsTrimmed(s: string)
    requires s == "application/sdp"
    ensures Trimmed(s)
  {
  }

  lemma CallerListIs(peer: string, local: string)
    ensures CallerList(peer, local) ==
              if peer == "" then []
              else [Header("P-Asserted-Identity", CallerFrom(peer, local))]
                   + [Header("Remote-Party-ID", CallerFrom(peer, local) + ";party=calling;screen=yes")]
  {
  }

  /** The names in an INVITE are different names. */
  lemma Names()
    ensures ToLower("Contact") != ToLower("Max-Forwards") && ToLower("Contact") != ToLower("Content-Type")
    ensures ToLower("Contact") != ToLower("Content-Length") && ToLower("Contact") != ToLower("P-Asserted-Identity")
    ensures ToLower("Contact") != ToLower("Remote-Party-ID")
    ensures ToLower("Max-Forwards") != ToLower("Content-Type") && ToLower("Max-Forwards") != ToLower("Content-Length")
    ensures ToLower("Max-Forwards") != ToLower("P-Asserted-Identity") && ToLower("Max-Forwards") != ToLower("Remote-Party-ID")
    ensures ToLower("P-Asserted-Identity") != ToLower("Remote-Party-ID") && ToLower("P-Asserted-Identity") != ToLower("Content-Type")
    ensures ToLower("P-Asserted-Identity") != ToLower("Content-Length") && ToLower("Remote-Party-ID") != ToLower("Content-Type")
    ensures ToLower("Remote-Party-ID") != ToLower("Content-Length") && ToLower("Content-Type") != ToLower("Content-Length")
  {
    hide ToLower;
    OtherName("Contact", "Max-Forwards");
    OtherName("Contact", "Content-Type");
    OtherName("Contact", "Content-Length");
    OtherName("Contact", "P-Asserted-Identity");
    OtherName("Contact", "Remote-Party-ID");
    OtherName("Max-Forwards", "Content-Type");
    OtherName("Max-Forwards", "Content-Length");
    OtherName("Max-Forwards", "P-Asserted-Identity");
    OtherName("Max-Forwards", "Remote-Party-ID");
    OtherName("P-Asserted-Identity", "Remote-Party-ID");
    OtherName("P-Asserted-Identity", "Content-Type");
    OtherName("P-Asserted-Identity", "Content-Length");
    OtherName("Remote-Party-ID", "Content-Type");
    OtherName("Remote-Party-ID", "Content-Length");
    OtherName("Content-Type", "Content-Length");
  }

  /** What the INVITE that rings a client carries: where to answer to, the offer and
      its length, and the caller in every header a phone may look for it. */
  lemma InviteCarries(call: Call, reg: Registration)
    requires call.Valid() && reg.Valid()
    ensures var m, sdp := InviteFor(call, reg), OfferSdp(reg.local, call.mediaPort);
            && ParseHeader(m, "Contact") == "<sip:cellbridge@" + reg.local + ":5060>"
            && ParseHeader(m, "Content-Type") == "application/sdp" && ParseHeader(m, "Content-Length") == Itoa(|sdp|)
            && BodyOf(m) == sdp
            && (call.peer != "" ==>
                  && ParseHeader(m, "P-Asserted-Identity") == CallerFrom(call.peer, reg.local)
                  && ParseHeader(m, "Remote-Party-ID") == CallerFrom(call.peer, reg.local) + ";party=calling;screen=yes")
  {
    hide ParseHeader, BodyOf, Block, OfferSdp, CallerHeaders, InviteTail, InviteList, Headers, ViaText, IpText, ValueOf, CallerFrom,
      IsOther, Line, StartLine, Printable, Itoa;
    var sdp, peer, local := OfferSdp(reg.local, call.mediaPort), call.peer, reg.local;
    var hs, tail := InviteList(peer, local, |sdp|), InviteTail(local, CallerHeaders(peer, local), sdp);
    InviteTailIsBlock(peer, local, sdp);
    InviteListPrints(peer, local, |sdp|);
    InviteListValues(peer, local, |sdp|);
    BehindInviteHeaders(call, reg);
    BlockBody(hs, sdp);
    assert BodyOf(InviteFor(call, reg)) == sdp;
    InviteHeader(call, reg, "Contact");
    InviteHeader(call, reg, "Content-Type");
    InviteHeader(call, reg, "Content-Length");
    InviteHeader(call, reg, "P-Asserted-Identity");
    InviteHeader(call, reg, "Remote-Party-ID");
  }

  /** A header of the INVITE's own is read out of their list. */
  lemma InviteHeader(call: Call, reg: Registration, name: string)
    requires call.Valid() && reg.Valid()
    requires name in {"Contact", "Content-Type", "Content-Length", "P-Asserted-Identity", "Remote-Party-ID"}
    ensures var sdp := OfferSdp(reg.local, call.mediaPort);
            var value := ValueOf(InviteList(call.peer, reg.local, |sdp|), name);
            value.Some? ==> ParseHeader(InviteFor(call, reg), name) == value.value
  {
    hide *;
    var sdp, peer, local := OfferSdp(reg.local, call.mediaPort), call.peer, reg.local;
    ValidTexts(call, reg);
    InviteTailIsBlock(peer, local, sdp);
    InviteListPrints(peer, local, |sdp|);
    BehindInviteHeaders(call, reg);
    OtherNames();
    OtherIsName(name);
    BlockReads(InviteList(peer, local, |sdp|), Line("", sdp), name);
  }

  lemma ValidTexts(call: Call, reg: Registration)
    requires call.Valid() && reg.Valid()
    ensures NoCrlf(call.peer) && IpText(reg.local)
  {
  }

  lemma OtherNames()
    ensures IsOther("Contact") && IsOther("Content-Type") && IsOther("Content-Length")
    ensures IsOther("P-Asserted-Identity") && IsOther("Remote-Party-ID")
  {
  }

  lemma BehindInviteHeaders(call: Call, reg: Registration)
    requires call.Valid() && reg.Valid()
    ensures var tail := InviteTail(reg.local, CallerHeaders(call.peer, reg.local), OfferSdp(reg.local, call.mediaPort));
            && (forall name :: IsOther(name) ==> ParseHeader(InviteFor(call, reg), name) == ParseHeader(tail, name))
            && BodyOf(InviteFor(call, reg)) == BodyOf(tail)
  {
    hide *;
    InviteIs(call, reg);
    InviteTexts(call, reg);
    BehindHeaders(InviteStart(reg), ViaText(reg.local, call.Branch()), false, InviteFrom(call, reg), ToText(reg), call.ID(), "1 INVITE",
                  InviteTail(reg.local, CallerHeaders(call.peer, reg.local), OfferSdp(reg.local, call.mediaPort)));
  }

  function InviteStart(reg: Registration): string {
    "INVITE sip:" + reg.user + "@" + reg.local + " SIP/2.0"
  }

  function InviteFrom(call: Call, reg: Registration): string {
    CallerFrom(call.peer, reg.local) + ";tag=cb" + call.ShortID()
  }

  lemma InviteIs(call: Call, reg: Registration)
    ensures InviteFor(call, reg) ==
              Line(InviteStart(reg),
                   Headers(ViaText(reg.local, call.Branch()), false, InviteFrom(call, reg), ToText(reg), call.ID(), "1 INVITE",
                           InviteTail(reg.local, CallerHeaders(call.peer, reg.local), OfferSdp(reg.local, call.mediaPort))))
  {
    hide Headers, ViaText, InviteTail, CallerHeaders, OfferSdp, CallerFrom, Line;
  }

  lemma InviteTexts(call: Call, reg: Registration)
    requires call.Valid() && reg.Valid()
    ensures StartLine(InviteStart(reg)) && NoCrlf(ViaText(reg.local, call.Branch())) && NoCrlf(InviteFrom(call, reg))
    ensures NoCrlf(ToText(reg)) && NoCrlf(call.ID()) && NoCrlf("1 INVITE")
  {
    hide ViaText, IpText, CallerFrom, StartLine, NoCrlf, InviteStart, ToText;
    CallText(call);
    CallerFromIsLine(call.peer, reg.local);
    FromIsLine(CallerFrom(call.peer, reg.local), call.ShortID());
    ViaTextParse(reg.local, call.Branch());
    AddressesAreLines(reg);
    OneInvite("1 INVITE");
  }

  lemma AddressesAreLines(reg: Registration)
    requires reg.Valid()
    ensures NoCrlf(ToText(reg)) && StartLine(InviteStart(reg))
  {
    hide IpText, StartLine, NoCrlf;
    AddressIsLine("<sip:", reg.user, reg.local, ">");
    StartOfInvite(reg);
  }

  lemma StartOfInvite(reg: Registration)
    requires reg.Valid()
    ensures StartLine(InviteStart(reg))
  {
    hide IpText, StartLine, NoCrlf;
    AddressIsLine("INVITE sip:", reg.user, reg.local, " SIP/2.0");
    assert InviteStart(reg) == "INVITE" + " " + ("sip:" + reg.user + "@" + reg.local + " SIP/2.0");
    VerbStarts("INVITE", "sip:" + reg.user + "@" + reg.local + " SIP/2.0");
  }

  lemma OneInvite(cseq: string)
    requires cseq == "1 INVITE"
    ensures NoCrlf(cseq)
  {
    NoLfNoCrlf(cseq);
  }

  /** The caller's number is the user of the From, which the identity headers repeat. */
  lemma CallerIsRead(peer: string, local: string)
    requires '@' !in peer && 's' !in peer
    ensures ExtractSipUser(CallerFrom(peer, local)) == Some(if peer == "" then "unknown" else peer)
  {
    if peer == "" {
      assert CallerFrom(peer, local) == "<sip:" + "unknown" + "@" + (local + ">");
      SipUserReads("unknown", local + ">");
    } else {
      var name := "\"" + peer + "\" <";
      assert CallerFrom(peer, local) == name + ("sip:" + (peer + "@" + (local + ">")));
      UserBehind(name, peer, local + ">");
    }
  }

  lemma UserBehind(name: string, user: string, rest: string)
    requires 's' !in name && '@' !in user
    ensures ExtractSipUser(name + ("sip:" + (user + "@" + rest))) == Some(user)
  {
    var tail := user + "@" + rest;
    var hdr := name + ("sip:" + tail);
    assert ("sip:" + tail)[..4] == "sip:";
    assert hdr[|name|..|name| + 4] == "sip:" && hdr[|name| + 4..] == tail;
    forall i | i < |name|
      ensures !At(hdr, "sip:", i)
    {
      if At(hdr, "sip:", i) {
        AtChar(hdr, "sip:", i, 0);
      }
    }
    assert At(hdr, "sip:", |name|);
    IndexIs(hdr, "sip:", |name|);
    assert forall i :: 0 <= i < |user| ==> tail[i] == user[i];
    IndexAnyIs(tail, {'@'}, |user|);
    assert tail[..|user|] == user;
  }

  /** The offer, line by line. */
  lemma OfferLines(local: string, port: nat)
    requires IpText(local)
    ensures Split(OfferSdp(local, port)) ==
              ["v=0", "o=cellbridge 0 0 IN IP4 " + local, "s=CellBridge", "c=IN IP4 " + local, "t=0 0",
               "m=audio " + Itoa(port) + " RTP/AVP 0", "a=rtpmap:0 PCMU/8000", ""]
  {
    hide Split, Itoa, Line;
    IpIsWord(local);
    ItoaShape(port);
    var l6, l5 := "a=rtpmap:0 PCMU/8000", "m=audio " + Itoa(port) + " RTP/AVP 0";
    var t6 := Line(l6, "");
    var t5 := Line(l5, t6);
    var t4 := Line("t=0 0", t5);
    var t3 := Line("c=IN IP4 " + local, t4);
    var t2 := Line("s=CellBridge", t3);
    var t1 := Line("o=cellbridge 0 0 IN IP4 " + local, t2);
    NoLfNoCrlf("");
    LoneLine("");
    NoLfNoCrlf(l6);
    NoLfNoCrlf(l5);
    NoLfNoCrlf("t=0 0");
    NoLfNoCrlf("c=IN IP4 " + local);
    NoLfNoCrlf("s=CellBridge");
    NoLfNoCrlf("o=cellbridge 0 0 IN IP4 " + local);
    NoLfNoCrlf("v=0");
    SplitLine(l6, "");
    SplitLine(l5, t6);
    SplitLine("t=0 0", t5);
    SplitLine("c=IN IP4 " + local, t4);
    SplitLine("s=CellBridge", t3);
    SplitLine("o=cellbridge 0 0 IN IP4 " + local, t2);
    SplitLine("v=0", t1);
  }
}
