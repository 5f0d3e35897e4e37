/** What the gateway's SIP messages owe one another: a response to its request,
    a CANCEL to the INVITE it cancels, a BYE to the dialog it ends. */
module SipDialogs {
  import opened Text
  import opened SipMessages

  datatype Direction = Inbound | Outbound

  datatype CallState = Init | Dialing | Answering | Active | Ended

  /** Everything needed to end a dialog, captured while it is set up. An address
      is kept as the text it prints as. */
  datatype Plan = Plan(remote: Option<string>, reqURI: string, from: string, to: string, callID: string,
                       inviteCSeq: int, inviteBranch: string, inviteReq: string, username: string)

  const NO_PLAN: Plan := Plan(None, "", "", "", "", 0, "", "", "")

  // ---------------------------------------------------------------- deriving a plan

  /** The user part of the first SIP address in a header value, "" when there is no
      address, None when nothing but blanks follows its scheme. */
  function ExtractSipUser(hdr: string): Option<string> {
    var i := IndexOf(hdr, "sip:");
    if i < 0 then Some("")
    else
      var s := hdr[i + 4..];
      var at, close := IndexAny(s, {'@'}), IndexAny(s, {'>'});
      if at >= 0 then Some(s[..at])
      else if close >= 0 then Some(s[..close])
      else if Fields(s) == [] then None
      else Some(Fields(s)[0])
  }

  function ContactUri(contact: string, remote: Option<string>, user: string): string {
    var i := IndexOf(contact, "sip:");
    var rest := if i < 0 then "" else
      var j := IndexAny(contact[i..], {'>', ';'});
      TrimSpace(if j < 0 then contact[i..] else contact[i..][..j]);
    if rest != "" then rest
    else if remote.None? then ""
    else "sip:" + user + "@" + remote.value
  }

  /** The plan of a call the client dials, read from its INVITE. newCallID
      stands in when the INVITE names no call. */
  function OutboundPlan(msg: string, remote: string, user: string, localTag: string, newCallID: string): Plan {
    var callID := ParseHeader(msg, "Call-ID");
    Plan(Some(remote), ContactUri(ParseHeader(msg, "Contact"), Some(remote), user),
         ParseHeader(msg, "To") + ";tag=" + localTag, ParseHeader(msg, "From"),
         if callID == "" then newCallID else callID,
         CSeqNumber(ParseHeader(msg, "CSeq")), "", msg, user)
  }

  /** The To of the dialog a 200 OK opens. */
  function AnsweredTo(plan: Plan, ok: string): string {
    if ParseHeader(ok, "To") != "" then ParseHeader(ok, "To") else plan.to
  }

  /** The plan of an inbound call once the client's 200 OK is in. */
  function AnsweredPlan(plan: Plan, ok: string, remote: string, user: string): Plan {
    var uri := ContactUri(ParseHeader(ok, "Contact"), Some(remote), user);
    plan.(remote := Some(remote), to := AnsweredTo(plan, ok), reqURI := if uri != "" then uri else plan.reqURI)
  }

  // ---------------------------------------------------------------- teardown

  datatype Teardown = Nothing | Cancel(text: string) | Final480(text: string) | Bye(text: string)

  function TeardownMessage(direction: Direction, state: CallState, localTag: string, plan: Plan,
                           localIP: string, nonce: string): Teardown {
    if plan.remote.None? || plan.callID == "" then Nothing
    else if direction.Inbound? && state.Init? then
      var msg := CancelMessage(plan.inviteReq, localIP);
      if msg != "" then Cancel(msg)
      else Cancel(RenderCancel(plan.reqURI, localIP, plan.inviteBranch, plan.from, plan.to, plan.callID, plan.inviteCSeq))
    else if state.Init? || state.Dialing? then
      if plan.inviteReq == "" then Nothing
      else Final480(BuildResponse(plan.inviteReq, 480, "Temporarily Unavailable", "", "", ";tag=" + localTag, ""))
    else
      Bye(RenderBye(plan.reqURI, localIP, "z9hG4bK" + nonce, plan.from, plan.to, plan.callID, Wrap64(plan.inviteCSeq + 1)))
  }

  // ---------------------------------------------------------------- responses

  /** Section 8.2.6.2 of RFC 3261 for every request text, well formed or not:
      what the response reads back as is what was read from the request. */
  lemma ResponseEchoesRequest(req: string, code: int, reason: string, extra: string, body: string, tag: string, minted: string)
    requires NoCrlf(reason) && NoSpace(tag) && NoSpace(minted)
    ensures var resp := BuildResponse(req, code, reason, extra, body, tag, minted);
            var to := ParseHeader(req, "To");
            && ParseHeader(resp, "Via") == ParseHeader(req, "Via")
            && ParseHeader(resp, "From") == ParseHeader(req, "From")
            && ParseHeader(resp, "Call-ID") == ParseHeader(req, "Call-ID")
            && ParseHeader(resp, "CSeq") == ParseHeader(req, "CSeq")
            && ParseHeader(resp, "To") == if Contains(to, "tag=") then to else if tag == "" then to + ";tag=" + minted else to + tag
  {
    hide ParseHeader, TrimSpace, Itoa, Headers, Contains;
    var via, from, to := ParseHeader(req, "Via"), ParseHeader(req, "From"), ParseHeader(req, "To");
    var callID, cseq := ParseHeader(req, "Call-ID"), ParseHeader(req, "CSeq");
    ParsedIsLine(req, "Via");
    ParsedIsLine(req, "From");
    ParsedIsLine(req, "To");
    ParsedIsLine(req, "Call-ID");
    ParsedIsLine(req, "CSeq");
    var t := ResponseTag(to, tag, minted);
    SuffixWord(to, t);
    StatusLine(code, reason);
    assert to + (";tag=" + minted) == to + ";tag=" + minted && to + "" == to;
    HeadersParse("SIP/2.0 " + Itoa(code) + " " + reason, via, false, from, to + t, callID, cseq,
                 extra + Line("Content-Length: " + Itoa(|body|), Line("", body)));
  }

  lemma StatusLine(code: int, reason: string)
    requires NoCrlf(reason)
    ensures StartLine("SIP/2.0 " + Itoa(code) + " " + reason)
  {
    hide Itoa;
    ItoaShape(code);
    var first := "SIP/2.0 " + Itoa(code) + " " + reason;
    NoLfNoCrlf("SIP/2.0 " + Itoa(code) + " ");
    NoCrlfConcat("SIP/2.0 " + Itoa(code) + " ", reason);
    assert first == "SIP/2.0" + " " + (Itoa(code) + " " + reason);
    VerbStarts("SIP/2.0", Itoa(code) + " " + reason);
  }

  lemma StatusReads(code: int, reason: string, rest: string)
    requires NoCrlf(reason) && IsInt64(code)
    ensures MethodOf(Line("SIP/2.0 " + Itoa(code) + " " + reason, rest)) == "SIP/2.0"
    ensures StatusOf(Line("SIP/2.0 " + Itoa(code) + " " + reason, rest)) == Some(code)
  {
    hide Itoa, Fields, MethodOf, RequestUriOf, Atoi;
    var first, number := "SIP/2.0 " + Itoa(code) + " " + reason, Itoa(code);
    StatusLine(code, reason);
    FirstLineOf(first, rest);
    ItoaShape(code);
    FieldsOfWord(number, ' ', reason);
    FieldsOfWord("SIP/2.0", ' ', number + [' '] + reason);
    assert first == "SIP/2.0" + [' '] + (number + [' '] + reason);
    AtoiItoa(code);
  }

  lemma SuffixWord(head: string, word: string)
    requires NoCrlf(head) && Trimmed(head) && NoSpace(word)
    ensures NoCrlf(head + word) && Trimmed(head + word)
  {
    assert '\n' !in word;
    NoLfNoCrlf(word);
    NoCrlfConcat(head, word);
  }

  // ---------------------------------------------------------------- CANCEL

  /** A printed CANCEL reads back to what it was printed from, and as a CANCEL. */
  lemma CancelReads(uri: string, localIP: string, branch: string, from: string, to: string, callID: string, number: int)
    requires uri != "" && NoSpace(uri) && IpText(localIP) && IsInt64(number)
    requires NoCrlf(branch) && NoStop(branch) && Trimmed(branch)
    requires NoCrlf(from) && NoCrlf(to) && NoCrlf(callID) && Trimmed(from) && Trimmed(to) && Trimmed(callID)
    ensures var m := RenderCancel(uri, localIP, branch, from, to, callID, number);
            && MethodOf(m) == "CANCEL" && CSeqMethod(ParseHeader(m, "CSeq")) == "CANCEL"
            && RequestUriOf(m) == uri && ViaBranchOf(m) == branch && ParseHeader(m, "Via") == ViaText(localIP, branch)
            && ParseHeader(m, "From") == from && ParseHeader(m, "To") == to
            && ParseHeader(m, "Call-ID") == callID
            && ParseHeader(m, "CSeq") == Itoa(number) + " CANCEL" && CSeqNumber(ParseHeader(m, "CSeq")) == number
            && ParseHeader(m, "Max-Forwards") == "70" && ParseHeader(m, "Content-Length") == "0" && BodyOf(m) == ""
  {
    hide ParseHeader, TrimSpace, RequestUriOf, MethodOf, BranchOfVia, CutBranch, CSeqNumber, CSeqMethod, Itoa, Headers, ViaText, NoStop, IpText,
      BodyOf;
    WordIsLine(uri);
    ViaTextParse(localIP, branch);
    CutBranchKeeps(branch);
    assert Itoa(number) + " " + "CANCEL" == Itoa(number) + " CANCEL" && "CANCEL" + " " + uri + " SIP/2.0" == "CANCEL " + uri + " SIP/2.0";
    RequestReads("CANCEL", uri, localIP, branch, from, to, callID, number);
  }

  lemma WordIsLine(w: string)
    requires NoSpace(w)
    ensures NoCrlf(w)
  {
    NoLfNoCrlf(w);
  }

  /** Section 9.1 of RFC 3261, for every INVITE text a CANCEL can be derived
      from: same Request-URI, branch, From, To, Call-ID and CSeq number. */
  lemma CancelMirrorsInvite(invite: string, localIP: string)
    requires IpText(localIP) && CancelMessage(invite, localIP) != ""
    ensures var m := CancelMessage(invite, localIP);
            && MethodOf(m) == "CANCEL" && CSeqMethod(ParseHeader(m, "CSeq")) == "CANCEL"
            && RequestUriOf(m) == RequestUriOf(invite) && ViaBranchOf(m) == ViaBranchOf(invite)
            && ParseHeader(m, "From") == ParseHeader(invite, "From") && ParseHeader(m, "To") == ParseHeader(invite, "To")
            && ParseHeader(m, "Call-ID") == ParseHeader(invite, "Call-ID")
            && CSeqNumber(ParseHeader(m, "CSeq")) == CSeqNumber(ParseHeader(invite, "CSeq"))
            && ParseHeader(m, "CSeq") == Itoa(CSeqNumber(ParseHeader(invite, "CSeq"))) + " CANCEL"
  {
    hide ParseHeader, RequestUriOf, MethodOf, CSeqMethod, BranchOfVia, CSeqNumber, Itoa, RenderCancel;
    ParsedIsLine(invite, "Via");
    ParsedIsLine(invite, "From");
    ParsedIsLine(invite, "To");
    ParsedIsLine(invite, "Call-ID");
    BranchOfViaShape(ParseHeader(invite, "Via"));
    CancelReads(RequestUriOf(invite), localIP, ViaBranchOf(invite), ParseHeader(invite, "From"), ParseHeader(invite, "To"),
                ParseHeader(invite, "Call-ID"), CSeqNumber(ParseHeader(invite, "CSeq")));
  }

  // ---------------------------------------------------------------- the INVITE that rings a client

  /** The From of that INVITE and the identity headers beside it. */
  function CallerFrom(peer: string, localIP: string): string {
    if peer == "" then "<sip:unknown@" + localIP + ">"
    else "\"" + peer + "\" <sip:" + peer + "@" + localIP + ">"
  }

  function CallerHeaders(peer: string, localIP: string): string {
    var id := "\"" + peer + "\" <sip:" + peer + "@" + localIP + ">";
    if peer == "" then ""
    else Line("P-Asserted-Identity: " + id, Line("Remote-Party-ID: " + id + ";party=calling;screen=yes", ""))
  }

  lemma IpIsWord(local: string)
    requires IpText(local)
    ensures NoSpace(local) && '\n' !in local
  {
    forall i | 0 <= i < |local|
      ensures !IsSpace(local[i])
    {
      assert local[i] in local;
    }
  }

  /** user@local between two pieces of fixed text is still one line. */
  lemma AddressIsLine(before: string, user: string, local: string, after: string)
    requires NoCrlf(user) && IpText(local) && '\n' !in before && '\n' !in after
    requires before != "" && before[|before| - 1] != '\r'
    ensures NoCrlf(before + user + "@" + local + after)
  {
    NoLfNoCrlf(before);
    NoLfNoCrlf("@" + local + after);
    NoCrlfConcat(before, user);
    NoCrlfConcat(before + user, "@" + local + after);
    assert (before + user) + ("@" + local + after) == before + user + "@" + local + after;
  }

  lemma FromIsLine(from: string, shortID: string)
    requires NoCrlf(from) && NoCrlf(shortID)
    ensures NoCrlf(from + ";tag=cb" + shortID)
  {
    NoLfNoCrlf(";tag=cb");
    NoCrlfConcat(from, ";tag=cb");
    NoCrlfConcat(from + ";tag=cb", shortID);
  }

  /** What the rendered INVITE reads back as, for any text of its fields that
      holds no line break and any body. */
  lemma InviteReads(user: string, local: string, branch: string, from: string, shortID: string, callID: string,
                    callerHeaders: string, sdp: string)
    requires NoCrlf(user) && IpText(local) && NoCrlf(branch) && NoCrlf(from) && NoCrlf(shortID) && NoCrlf(callID)
    requires from != "" && from[|from| - 1] == '>'
    ensures var m := RenderInvite(user, local, branch, from, shortID, callID, callerHeaders, sdp);
            && MethodOf(m) == "INVITE" && CSeqMethod(ParseHeader(m, "CSeq")) == "INVITE"
            && ViaBranchOf(m) == CutBranch(branch + ";rport") && ParseHeader(m, "Via") == ViaText(local, branch)
            && ParseHeader(m, "From") == TrimSpace(from + ";tag=cb" + shortID)
            && ParseHeader(m, "To") == "<sip:" + user + "@" + local + ">"
            && ParseHeader(m, "Call-ID") == TrimSpace(callID)
            && ParseHeader(m, "CSeq") == "1 INVITE"
  {
    hide ParseHeader, TrimSpace, BranchOfVia, CutBranch, Headers, ViaText, IpText, Itoa, MethodOf, CSeqMethod, StartLine, Line, NoCrlf,
      RequestUriOf, InviteTail, CSeqNumber;
    var first, target := "INVITE sip:" + user + "@" + local + " SIP/2.0", "sip:" + user + "@" + local + " SIP/2.0";
    var to := "<sip:" + user + "@" + local + ">";
    AddressIsLine("INVITE sip:", user, local, " SIP/2.0");
    AddressIsLine("<sip:", user, local, ">");
    FromIsLine(from, shortID);
    NoLfNoCrlf("1 INVITE");
    ViaTextParse(local, branch);
    InviteCSeqReads();
    var h := Headers(ViaText(local, branch), false, from + ";tag=cb" + shortID, to, callID, "1 INVITE", InviteTail(local, callerHeaders, sdp));
    assert first == "INVITE" + " " + target;
    VerbStarts("INVITE", target);
    MethodRead("INVITE", target, h);
    HeadersParse(first, ViaText(local, branch), false, from + ";tag=cb" + shortID, to, callID, "1 INVITE",
                 InviteTail(local, callerHeaders, sdp));
  }

  lemma InviteCSeqReads()
    ensures CSeqMethod("1 INVITE") == "INVITE" && CSeqNumber("1 INVITE") == 1
  {
    hide CSeqMethod, CSeqNumber;
    assert Itoa(1) == "1" && "1" + " " + "INVITE" == "1 INVITE";
    CSeqTextParse(1, "INVITE");
  }

  /** With blank-free, delimiter-free fields nothing is lost in the reading. */
  lemma InviteReadsExactly(user: string, local: string, branch: string, from: string, shortID: string, callID: string,
                           callerHeaders: string, sdp: string)
    requires NoSpace(user) && IpText(local) && NoSpace(branch) && NoStop(branch) && NoSpace(shortID) && NoSpace(callID)
    requires NoCrlf(from) && Trimmed(from) && from != "" && from[|from| - 1] == '>'
    ensures var m := RenderInvite(user, local, branch, from, shortID, callID, callerHeaders, sdp);
            && RequestUriOf(m) == "sip:" + user + "@" + local
            && ViaBranchOf(m) == branch && ParseHeader(m, "Via") == ViaText(local, branch)
            && ParseHeader(m, "From") == from + ";tag=cb" + shortID
            && ParseHeader(m, "Call-ID") == callID
  {
    hide ParseHeader, TrimSpace, BranchOfVia, CutBranch, RequestUriOf, MethodOf, CSeqMethod, ViaText, RenderInvite;
    assert '\n' !in user && '\n' !in branch && '\n' !in shortID && '\n' !in callID;
    NoLfNoCrlf(user);
    NoLfNoCrlf(branch);
    NoLfNoCrlf(shortID);
    NoLfNoCrlf(callID);
    InviteReads(user, local, branch, from, shortID, callID, callerHeaders, sdp);
    CutBranchKeeps(branch);
    InviteUri(user, local, branch, from, shortID, callID, callerHeaders, sdp);
  }

  lemma InviteUri(user: string, local: string, branch: string, from: string, shortID: string, callID: string,
                  callerHeaders: string, sdp: string)
    requires NoSpace(user) && IpText(local)
    ensures RequestUriOf(RenderInvite(user, local, branch, from, shortID, callID, callerHeaders, sdp)) == "sip:" + user + "@" + local
  {
    hide RequestUriOf, Headers;
    var uri := "sip:" + user + "@" + local;
    IpIsWord(local);
    assert "INVITE sip:" + user + "@" + local + " SIP/2.0" == "INVITE" + " " + uri + " SIP/2.0";
    var m := RenderInvite(user, local, branch, from, shortID, callID, callerHeaders, sdp);
    var n := |"INVITE" + " " + uri + " SIP/2.0"|;
    assert m == Line("INVITE" + " " + uri + " SIP/2.0", m[n + 2..]);
    RequestLineParse("INVITE", uri, m[n + 2..]);
  }

  lemma WordOfRequestLine(uri: string, rest: string)
    requires uri != "" && !IsSpace(uri[0]) && NoCrlf(uri)
    ensures RequestUriOf(Line("INVITE " + uri + " SIP/2.0", rest)) != ""
  {
    hide Fields, IndexOf;
    var first := "INVITE " + uri + " SIP/2.0";
    NoLfNoCrlf("INVITE ");
    NoLfNoCrlf(" SIP/2.0");
    NoCrlfConcat("INVITE ", uri);
    NoCrlfConcat("INVITE " + uri, " SIP/2.0");
    IndexOfLineEnd(first, rest);
    assert Line(first, rest)[..|first|] == first;
    assert first == "INVITE" + [' '] + (uri + " SIP/2.0");
    FieldsOfWord("INVITE", ' ', uri + " SIP/2.0");
    FieldsNonEmpty(uri + " SIP/2.0");
  }

  lemma InviteHasUri(user: string, local: string, branch: string, from: string, shortID: string, callID: string,
                     callerHeaders: string, sdp: string)
    requires NoCrlf(user) && IpText(local)
    ensures RequestUriOf(RenderInvite(user, local, branch, from, shortID, callID, callerHeaders, sdp)) != ""
    ensures RenderInvite(user, local, branch, from, shortID, callID, callerHeaders, sdp) != ""
  {
    hide RequestUriOf, Headers;
    var m := RenderInvite(user, local, branch, from, shortID, callID, callerHeaders, sdp);
    var uri := "sip:" + user + "@" + local;
    AddressIsLine("sip:", user, local, "");
    assert uri + "" == uri;
    assert "INVITE sip:" + user + "@" + local + " SIP/2.0" == "INVITE " + uri + " SIP/2.0";
    var n := |"INVITE " + uri + " SIP/2.0"|;
    assert m == Line("INVITE " + uri + " SIP/2.0", m[n + 2..]);
    WordOfRequestLine(uri, m[n + 2..]);
  }

  lemma FieldsNonEmpty(s: string)
    requires s != "" && !IsSpace(s[0])
    ensures |Fields(s)| > 0
  {
    assert TrimLeft(s) == s;
  }

  /** Every INVITE the gateway rings a client with can be cancelled from its own
      bytes, however odd the registered user name or the caller number is. */
  lemma RungInviteHasCancel(user: string, local: string, peer: string, shortID: string, callID: string, sdp: string, localIP: string)
    requires NoCrlf(user) && IpText(local) && IpText(localIP) && NoCrlf(peer) && NoCrlf(shortID) && NoCrlf(callID)
    requires Trimmed(callID) && callID != ""
    ensures CancelMessage(RenderInvite(user, local, "z9hG4bK" + shortID, CallerFrom(peer, local), shortID, callID,
                                       CallerHeaders(peer, local), sdp), localIP) != ""
  {
    hide ParseHeader, TrimSpace, BranchOfVia, CutBranch, RequestUriOf, CSeqNumber, CallerHeaders, RenderInvite, CancelMessage,
      MethodOf, CSeqMethod, ViaText, CallerFrom, NoCrlf;
    var branch, from := "z9hG4bK" + shortID, CallerFrom(peer, local);
    var m := RenderInvite(user, local, branch, from, shortID, callID, CallerHeaders(peer, local), sdp);
    CallerFromIsLine(peer, local);
    BranchIsLine(shortID);
    InviteReads(user, local, branch, from, shortID, callID, CallerHeaders(peer, local), sdp);
    CutBranchNonEmpty(branch + ";rport");
    FromHasInk(peer, local, ";tag=cb" + shortID);
    assert from + (";tag=cb" + shortID) == from + ";tag=cb" + shortID;
    InviteHasUri(user, local, branch, from, shortID, callID, CallerHeaders(peer, local), sdp);
    CancelIsRendered(m, localIP);
  }

  lemma BranchIsLine(shortID: string)
    requires NoCrlf(shortID)
    ensures NoCrlf("z9hG4bK" + shortID)
  {
    NoLfNoCrlf("z9hG4bK");
    NoCrlfConcat("z9hG4bK", shortID);
  }

  lemma FromHasInk(peer: string, local: string, rest: string)
    ensures TrimSpace(CallerFrom(peer, local) + rest) != ""
  {
    hide TrimSpace;
    var from := CallerFrom(peer, local) + rest;
    assert from[0] in {'<', '"'};
    TrimKeepsInk(from);
  }

  lemma CancelIsRendered(invite: string, localIP: string)
    requires invite != "" && localIP != "" && RequestUriOf(invite) != "" && ViaBranchOf(invite) != ""
    requires ParseHeader(invite, "From") != "" && ParseHeader(invite, "To") != ""
    requires ParseHeader(invite, "Call-ID") != "" && ParseHeader(invite, "CSeq") != ""
    ensures CancelMessage(invite, localIP) != ""
  {
    hide ParseHeader, ViaBranchOf, RequestUriOf, CSeqNumber;
  }

  lemma CallerFromIsLine(peer: string, local: string)
    requires NoCrlf(peer) && IpText(local)
    ensures var from := CallerFrom(peer, local);
            NoCrlf(from) && Trimmed(from) && from != "" && from[|from| - 1] == '>'
  {
    NoLfNoCrlf("<sip:unknown@" + local + ">");
    NoLfNoCrlf("\"");
    NoLfNoCrlf("\" <sip:");
    NoLfNoCrlf("@" + local + ">");
    NoCrlfConcat("\"", peer);
    NoCrlfConcat("\"" + peer, "\" <sip:");
    NoCrlfConcat("\"" + peer + "\" <sip:", peer);
    NoCrlfConcat("\"" + peer + "\" <sip:" + peer, "@" + local + ">");
    assert ("\"" + peer + "\" <sip:" + peer) + ("@" + local + ">") == "\"" + peer + "\" <sip:" + peer + "@" + local + ">";
  }

  lemma TrimKeepsInk(s: string)
    requires s != "" && !IsSpace(s[0])
    ensures TrimSpace(s) != ""
  {
    assert TrimLeft(s) == s;
    TrimRightKeepsInk(s);
  }

  lemma TrimRightKeepsInk(s: string)
    requires s != "" && !IsSpace(s[0])
    ensures TrimRight(s) != ""
  {
  }

  lemma CutBranchNonEmpty(rest: string)
    requires rest != "" && !IsSpace(rest[0]) && rest[0] !in BRANCH_STOP
    ensures CutBranch(rest) != ""
  {
    hide TrimSpace;
    var j := IndexAny(rest, BRANCH_STOP);
    TrimKeepsInk(if j < 0 then rest else rest[..j]);
  }

  /** The rest of section 9.1, for the INVITEs the gateway rings clients with: the
      CANCEL's whole Via, not only its branch, is the INVITE's exactly when the
      gateway still reaches the client from the same address and the branch holds
      nothing a reader of it stops at. */
  lemma CancelKeepsViaIff(user: string, local: string, peer: string, shortID: string, callID: string, sdp: string, localIP: string)
    requires NoCrlf(user) && IpText(local) && IpText(localIP) && NoCrlf(peer) && NoCrlf(shortID) && NoCrlf(callID)
    requires Trimmed(callID) && callID != ""
    ensures var branch := "z9hG4bK" + shortID;
            var invite := RenderInvite(user, local, branch, CallerFrom(peer, local), shortID, callID, CallerHeaders(peer, local), sdp);
            && CancelMessage(invite, localIP) != ""
            && (ParseHeader(CancelMessage(invite, localIP), "Via") == ParseHeader(invite, "Via")
                <==> localIP == local && NoStop(branch) && Trimmed(branch))
  {
    hide ParseHeader, TrimSpace, BranchOfVia, CutBranch, RequestUriOf, CSeqNumber, CallerHeaders, CallerFrom, RenderInvite,
      CancelMessage, ViaText, NoStop;
    var branch, from := "z9hG4bK" + shortID, CallerFrom(peer, local);
    var invite := RenderInvite(user, local, branch, from, shortID, callID, CallerHeaders(peer, local), sdp);
    CallerFromIsLine(peer, local);
    NoLfNoCrlf("z9hG4bK");
    NoCrlfConcat("z9hG4bK", shortID);
    RungInviteHasCancel(user, local, peer, shortID, callID, sdp, localIP);
    InviteReads(user, local, branch, from, shortID, callID, CallerHeaders(peer, local), sdp);
    CancelVia(invite, localIP);
    ViaTextTells(localIP, CutBranch(branch + ";rport"), local, branch);
    CutBranchShape(branch + ";rport");
    if NoStop(branch) && Trimmed(branch) {
      CutBranchKeeps(branch);
    }
  }

  lemma CancelVia(invite: string, localIP: string)
    requires IpText(localIP) && CancelMessage(invite, localIP) != ""
    ensures ParseHeader(CancelMessage(invite, localIP), "Via") == ViaText(localIP, ViaBranchOf(invite))
  {
    hide ParseHeader, RequestUriOf, BranchOfVia, CSeqNumber, Itoa, RenderCancel, ViaText;
    ParsedIsLine(invite, "Via");
    ParsedIsLine(invite, "From");
    ParsedIsLine(invite, "To");
    ParsedIsLine(invite, "Call-ID");
    BranchOfViaShape(ParseHeader(invite, "Via"));
    CancelReads(RequestUriOf(invite), localIP, ViaBranchOf(invite), ParseHeader(invite, "From"), ParseHeader(invite, "To"),
                ParseHeader(invite, "Call-ID"), CSeqNumber(ParseHeader(invite, "CSeq")));
  }

  /** A printed Via tells its address and its branch. */
  lemma ViaTextTells(a: string, branchA: string, b: string, branchB: string)
    requires IpText(a) && IpText(b)
    ensures ViaText(a, branchA) == ViaText(b, branchB) <==> a == b && branchA == branchB
  {
    if ViaText(a, branchA) == ViaText(b, branchB) {
      ViaTextSplit(a, branchA);
      ViaTextSplit(b, branchB);
    }
  }

  lemma ViaTextSplit(a: string, branch: string)
    requires IpText(a)
    ensures var via, head := ViaText(a, branch), |"SIP/2.0/UDP "|;
            var i := IndexAny(via, {';'});
            i == head + |a| + |":5060"| && via[head..i - |":5060"|] == a && via[i + 1 + |BRANCH|..|via| - |";rport"|] == branch
  {
    var via, head := ViaText(a, branch), "SIP/2.0/UDP ";
    var front := head + a + ":5060";
    assert via == front + (";" + BRANCH + branch + ";rport");
    forall i | 0 <= i < |front|
      ensures via[i] != ';'
    {
      assert via[i] == front[i];
      assert |head| <= i < |head| + |a| ==> front[i] == a[i - |head|] && a[i - |head|] in a;
    }
    IndexAnyIs(via, {';'}, |front|);
  }

  // ---------------------------------------------------------------- BYE

  /** A printed BYE reads back to what it was printed from, and as a BYE. */
  lemma ByeReads(uri: string, localIP: string, nonce: string, from: string, to: string, callID: string, number: int)
    requires NoCrlf(uri) && IpText(localIP) && NoSpace(nonce) && IsInt64(number)
    requires NoCrlf(from) && NoCrlf(to) && NoCrlf(callID) && Trimmed(from) && Trimmed(to) && Trimmed(callID)
    ensures var m := RenderBye(uri, localIP, "z9hG4bK" + nonce, from, to, callID, number);
            && MethodOf(m) == "BYE" && CSeqMethod(ParseHeader(m, "CSeq")) == "BYE"
            && (uri != "" && NoSpace(uri) ==> RequestUriOf(m) == uri)
            && ParseHeader(m, "Via") == ViaText(localIP, "z9hG4bK" + nonce)
            && ParseHeader(m, "From") == from && ParseHeader(m, "To") == to && ParseHeader(m, "Call-ID") == callID
            && CSeqNumber(ParseHeader(m, "CSeq")) == number
            && ParseHeader(m, "CSeq") == Itoa(number) + " BYE"
            && ParseHeader(m, "Max-Forwards") == "70" && ParseHeader(m, "Content-Length") == "0" && BodyOf(m) == ""
  {
    hide ParseHeader, TrimSpace, RequestUriOf, MethodOf, BranchOfVia, CutBranch, CSeqNumber, CSeqMethod, Itoa, Headers, ViaText, IpText, BodyOf;
    WordIsLine("z9hG4bK" + nonce);
    assert Itoa(number) + " " + "BYE" == Itoa(number) + " BYE" && "BYE" + " " + uri + " SIP/2.0" == "BYE " + uri + " SIP/2.0";
    RequestReads("BYE", uri, localIP, "z9hG4bK" + nonce, from, to, callID, number);
  }

  /** What a Contact says: the address from the first "sip:" to the next angle bracket
      or semicolon, or the end; the packet's address plays no part. */
  lemma ContactUriReads(before: string, rest: string, stop: string, after: string, remote: Option<string>, user: string)
    requires forall i :: i < |before| ==> !At(before + "sip:" + rest + stop + after, "sip:", i)
    requires forall i :: 0 <= i < |rest| ==> rest[i] !in {'>', ';'}
    requires rest == "" || !IsSpace(rest[|rest| - 1])
    requires stop in {">", ";"} || (stop == "" && after == "")
    ensures ContactUri(before + "sip:" + rest + stop + after, remote, user) == "sip:" + rest
  {
    hide TrimSpace, IndexOf, IndexAny;
    var contact, uri := before + "sip:" + rest + stop + after, "sip:" + rest;
    var tail := uri + (stop + after);
    assert contact == before + tail;
    FirstSip(contact, before, tail);
    UriEnd(uri, rest, stop, after);
  }

  lemma FirstSip(contact: string, before: string, tail: string)
    requires contact == before + tail && |tail| >= 4 && tail[..4] == "sip:"
    requires forall i :: i < |before| ==> !At(contact, "sip:", i)
    ensures IndexOf(contact, "sip:") == |before| && contact[|before|..] == tail
  {
    assert contact[|before|..|before| + 4] == tail[..4];
    assert At(contact, "sip:", |before|);
    IndexIs(contact, "sip:", |before|);
  }

  lemma UriEnd(uri: string, rest: string, stop: string, after: string)
    requires uri == "sip:" + rest && forall i :: 0 <= i < |rest| ==> rest[i] !in {'>', ';'}
    requires rest == "" || !IsSpace(rest[|rest| - 1])
    requires stop in {">", ";"} || (stop == "" && after == "")
    ensures var tail, j := uri + (stop + after), IndexAny(uri + (stop + after), {'>', ';'});
            TrimSpace(if j < 0 then tail else tail[..j]) == uri
  {
    hide TrimSpace, IndexAny;
    var tail := uri + (stop + after);
    assert uri[|uri| - 1] == if rest == "" then ':' else rest[|rest| - 1];
    assert forall i :: 0 <= i < |uri| ==> tail[i] == uri[i] && uri[i] !in {'>', ';'};
    if stop == "" {
      assert tail == uri;
    } else {
      assert tail[|uri|] == stop[0];
      IndexAnyIs(tail, {'>', ';'}, |uri|);
      assert tail[..|uri|] == uri;
    }
  }

  /** Only a Contact without any "sip:" is made up for from the packet's address. */
  lemma MadeUpUri(contact: string, remote: string, user: string)
    ensures !Contains(contact, "sip:") ==> ContactUri(contact, Some(remote), user) == "sip:" + user + "@" + remote
    ensures Contains(contact, "sip:") ==> ContactUri(contact, Some(remote), user) == ContactUri(contact, None, "") != ""
  {
    hide TrimSpace;
    var i := IndexOf(contact, "sip:");
    if i >= 0 {
      var j := IndexAny(contact[i..], {'>', ';'});
      var text := if j < 0 then contact[i..] else contact[i..][..j];
      AtChar(contact, "sip:", i, 0);
      AtChar(contact, "sip:", i, 1);
      assert j != 0;
      TrimKeepsInk(text);
    }
  }

  lemma ContactUriIsLine(contact: string, remote: string, user: string)
    requires NoCrlf(contact) && NoCrlf(user) && '\n' !in remote
    ensures NoCrlf(ContactUri(contact, Some(remote), user))
  {
    hide TrimSpace;
    var i := IndexOf(contact, "sip:");
    if i >= 0 {
      var j := IndexAny(contact[i..], {'>', ';'});
      NoCrlfDrop(contact, i);
      if j >= 0 {
        NoCrlfTake(contact[i..], j);
      }
      NoCrlfTrim(if j < 0 then contact[i..] else contact[i..][..j]);
    }
    NoLfNoCrlf("sip:");
    NoLfNoCrlf("@" + remote);
    NoCrlfConcat("sip:", user);
    NoCrlfConcat("sip:" + user, "@" + remote);
    assert ("sip:" + user) + ("@" + remote) == "sip:" + user + "@" + remote;
  }

  lemma ExtractedUserIsLine(hdr: string)
    requires NoCrlf(hdr) && ExtractSipUser(hdr).Some?
    ensures NoCrlf(ExtractSipUser(hdr).value)
  {
    hide Fields;
    var i := IndexOf(hdr, "sip:");
    NoLfNoCrlf("");
    if i >= 0 {
      var s := hdr[i + 4..];
      NoCrlfDrop(hdr, i + 4);
      var at, close := IndexAny(s, {'@'}), IndexAny(s, {'>'});
      if at >= 0 {
        NoCrlfTake(s, at);
      } else if close >= 0 {
        NoCrlfTake(s, close);
      } else {
        assert NoSpace(Fields(s)[0]);
        NoLfNoCrlf(Fields(s)[0]);
      }
    }
  }

  /** The dialog of a call the client dials (section 12.2.1.1 of RFC 3261), for
      every INVITE text that names its call: every response sent with the pinned
      tag and the BYE that ends the call agree on the gateway's side of the
      dialog exactly when the INVITE's To carried no tag of its own. The client's
      side, the Call-ID and the successor CSeq number hold either way. */
  lemma OutboundDialogAgrees(msg: string, remote: string, user: string, localTag: string, newCallID: string,
                             code: int, reason: string, extra: string, body: string, minted: string,
                             state: CallState, localIP: string, nonce: string)
    requires ExtractSipUser(ParseHeader(msg, "From")) == Some(user) && ParseHeader(msg, "Call-ID") != ""
    requires NoSpace(localTag) && NoSpace(minted) && NoSpace(nonce) && NoCrlf(reason) && IpText(localIP) && '\n' !in remote
    requires state in {Answering, Active, Ended}
    ensures var plan := OutboundPlan(msg, remote, user, localTag, newCallID);
            var resp := BuildResponse(msg, code, reason, extra, body, ";tag=" + localTag, minted);
            var end := TeardownMessage(Outbound, state, localTag, plan, localIP, nonce);
            && end.Bye? && MethodOf(end.text) == "BYE" && plan.remote == Some(remote)
            && (var uri := ContactUri(ParseHeader(msg, "Contact"), Some(remote), user); NoSpace(uri) ==> RequestUriOf(end.text) == uri)
            && (ParseHeader(resp, "To") == ParseHeader(end.text, "From") <==> !Contains(ParseHeader(msg, "To"), "tag="))
            && ParseHeader(resp, "From") == ParseHeader(end.text, "To") == ParseHeader(msg, "From")
            && ParseHeader(resp, "Call-ID") == ParseHeader(end.text, "Call-ID") == ParseHeader(msg, "Call-ID")
            && CSeqNumber(ParseHeader(resp, "CSeq")) == CSeqNumber(ParseHeader(msg, "CSeq"))
            && CSeqNumber(ParseHeader(end.text, "CSeq")) == Wrap64(CSeqNumber(ParseHeader(msg, "CSeq")) + 1)
  {
    hide ParseHeader, TrimSpace, CSeqNumber, ContactUri, ExtractSipUser, Contains, BuildResponse, RenderBye, Itoa, MethodOf, CSeqMethod,
      RequestUriOf, ViaText, BodyOf, IpText;
    var plan := OutboundPlan(msg, remote, user, localTag, newCallID);
    ParsedIsLine(msg, "From");
    ParsedIsLine(msg, "To");
    ParsedIsLine(msg, "Call-ID");
    ParsedIsLine(msg, "Contact");
    ExtractedUserIsLine(ParseHeader(msg, "From"));
    ContactUriIsLine(ParseHeader(msg, "Contact"), remote, user);
    ContactUriNonEmpty(ParseHeader(msg, "Contact"), remote, user);
    var to := ParseHeader(msg, "To");
    SuffixWord(to, ";tag=" + localTag);
    assert to + (";tag=" + localTag) == plan.from;
    ResponseEchoesRequest(msg, code, reason, extra, body, ";tag=" + localTag, minted);
    ByeReads(plan.reqURI, localIP, nonce, plan.from, plan.to, plan.callID, Wrap64(plan.inviteCSeq + 1));
  }

  /** An INVITE inside a dialog: its To has a tag. */
  const RE_INVITE: string :=
    Line("INVITE sip:1@gw SIP/2.0", Headers("SIP/2.0/UDP ua", false, "<sip:2@gw>;tag=a", "<sip:1@gw>;tag=b", "c", "2 INVITE", NO_BODY))

  /** Such an INVITE under a Call-ID the gateway does not know is dialled like any
      other; the BYE then names a tag no response carried. */
  lemma ReInviteDisagrees(remote: string, localTag: string, newCallID: string, localIP: string, nonce: string)
    requires NoSpace(localTag) && NoSpace(nonce) && IpText(localIP) && '\n' !in remote
    ensures var plan := OutboundPlan(RE_INVITE, remote, "2", localTag, newCallID);
            var ok := BuildResponse(RE_INVITE, 200, "OK", "", "", ";tag=" + localTag, "");
            var end := TeardownMessage(Outbound, Active, localTag, plan, localIP, nonce);
            end.Bye? && ParseHeader(ok, "To") != ParseHeader(end.text, "From")
  {
    hide *;
    ReInviteReads(RE_INVITE);
    OkIsReason("OK");
    NothingIsWord("");
    OutboundDialogAgrees(RE_INVITE, remote, "2", localTag, newCallID, 200, "OK", "", "", "", Active, localIP, nonce);
  }

  lemma OkIsReason(reason: string)
    requires reason == "OK"
    ensures NoCrlf(reason)
  {
    NoLfNoCrlf(reason);
  }

  lemma NothingIsWord(s: string)
    requires s == ""
    ensures NoSpace(s)
  {
  }

  lemma ReInviteReads(msg: string)
    requires msg == RE_INVITE
    ensures ExtractSipUser(ParseHeader(msg, "From")) == Some("2") && ParseHeader(msg, "Call-ID") != ""
    ensures Contains(ParseHeader(msg, "To"), "tag=")
  {
    hide ParseHeader, TrimSpace, Headers, ExtractSipUser, Contains, Line, NoCrlf, Trimmed, StartLine;
    var first, from, to := "INVITE sip:1@gw SIP/2.0", "<sip:2@gw>;tag=a", "<sip:1@gw>;tag=b";
    FirstOfReInvite(first);
    ReInviteTexts("SIP/2.0/UDP ua", from, to, "c", "2 INVITE");
    HeadersParse(first, "SIP/2.0/UDP ua", false, from, to, "c", "2 INVITE", NO_BODY);
    TagInside(to);
    UserInside(from);
  }

  lemma FirstOfReInvite(first: string)
    requires first == "INVITE sip:1@gw SIP/2.0"
    ensures StartLine(first)
  {
    NoLfNoCrlf(first);
    assert first == "INVITE" + " " + "sip:1@gw SIP/2.0";
    VerbStarts("INVITE", "sip:1@gw SIP/2.0");
  }

  lemma ReInviteTexts(via: string, from: string, to: string, callID: string, cseq: string)
    requires via == "SIP/2.0/UDP ua" && from == "<sip:2@gw>;tag=a" && to == "<sip:1@gw>;tag=b" && callID == "c" && cseq == "2 INVITE"
    ensures NoCrlf(via) && NoCrlf(from) && NoCrlf(to) && NoCrlf(callID) && NoCrlf(cseq)
    ensures Trimmed(from) && Trimmed(to) && Trimmed(callID) && callID != ""
  {
    NoLfNoCrlf(via);
    NoLfNoCrlf(from);
    NoLfNoCrlf(to);
    NoLfNoCrlf(callID);
    NoLfNoCrlf(cseq);
  }

  lemma TagInside(to: string)
    requires to == "<sip:1@gw>;tag=b"
    ensures Contains(to, "tag=")
  {
    assert At(to, "tag=", 11);
  }

  /** The user of an address in angle brackets is read back. */
  lemma SipUserReads(user: string, rest: string)
    requires '@' !in user
    ensures ExtractSipUser("<sip:" + user + "@" + rest) == Some(user)
  {
    var hdr, tail := "<sip:" + user + "@" + rest, user + "@" + rest;
    assert hdr == "<" + ("sip:" + tail);
    assert hdr[1..5] == "sip:" && hdr[5..] == tail;
    FirstIsNot(hdr);
    IndexIs(hdr, "sip:", 1);
    forall i | 0 <= i < |user|
      ensures tail[i] != '@'
    {
      assert tail[i] == user[i];
    }
    IndexAnyIs(tail, {'@'}, |user|);
    assert tail[..|user|] == user;
  }

  lemma UserInside(from: string)
    requires from == "<sip:2@gw>;tag=a"
    ensures ExtractSipUser(from) == Some("2")
  {
    hide ExtractSipUser;
    assert from == "<sip:" + "2" + "@" + "gw>;tag=a";
    SipUserReads("2", "gw>;tag=a");
  }

  lemma SipFound(before: string, text: string)
    requires forall i :: i < |before| ==> !At(before + "sip:" + text, "sip:", i)
    ensures IndexOf(before + "sip:" + text, "sip:") == |before| && (before + "sip:" + text)[|before| + 4..] == text
  {
    var tail := "sip:" + text;
    assert before + "sip:" + text == before + tail && tail[..4] == "sip:" && tail[4..] == text;
    FirstSip(before + tail, before, tail);
    assert (before + tail)[|before| + 4..] == (before + tail)[|before|..][4..];
  }

  /** The user of the first SIP address: up to an at sign, if the rest has one; else up
      to a closing bracket, if it has one; else its first word. */
  lemma SipUserCases(before: string, user: string, rest: string)
    requires '@' !in user
    ensures (forall i :: i < |before| ==> !At(before + "sip:" + (user + "@" + rest), "sip:", i)) ==>
              ExtractSipUser(before + "sip:" + (user + "@" + rest)) == Some(user)
    ensures (forall i :: i < |before| ==> !At(before + "sip:" + (user + ">" + rest), "sip:", i)) && '@' !in rest && '>' !in user ==>
              ExtractSipUser(before + "sip:" + (user + ">" + rest)) == Some(user)
    ensures (forall i :: i < |before| ==> !At(before + "sip:" + (user + " " + rest), "sip:", i)) && user != "" && NoSpace(user)
            && '>' !in user && '@' !in rest && '>' !in rest ==>
              ExtractSipUser(before + "sip:" + (user + " " + rest)) == Some(user)
  {
    hide *;
    if forall i :: i < |before| ==> !At(before + "sip:" + (user + "@" + rest), "sip:", i) {
      UserBeforeAt(before, user, rest);
    }
    if (forall i :: i < |before| ==> !At(before + "sip:" + (user + ">" + rest), "sip:", i)) && '@' !in rest && '>' !in user {
      UserBeforeBracket(before, user, rest);
    }
    if (forall i :: i < |before| ==> !At(before + "sip:" + (user + " " + rest), "sip:", i)) && user != "" && NoSpace(user)
       && '>' !in user && '@' !in rest && '>' !in rest {
      UserIsWord(before, user, rest);
    }
  }

  lemma UserBeforeAt(before: string, user: string, rest: string)
    requires '@' !in user && forall i :: i < |before| ==> !At(before + "sip:" + (user + "@" + rest), "sip:", i)
    ensures ExtractSipUser(before + "sip:" + (user + "@" + rest)) == Some(user)
  {
    hide IndexOf, At, Fields;
    SipFound(before, user + "@" + rest);
    UpTo(user, '@', rest);
  }

  lemma UserBeforeBracket(before: string, user: string, rest: string)
    requires '@' !in user && forall i :: i < |before| ==> !At(before + "sip:" + (user + ">" + rest), "sip:", i)
    requires '@' !in rest && '>' !in user
    ensures ExtractSipUser(before + "sip:" + (user + ">" + rest)) == Some(user)
  {
    hide IndexOf, At, Fields;
    SipFound(before, user + ">" + rest);
    UpTo(user, '>', rest);
    assert IndexAny(user + ">" + rest, {'@'}) < 0;
  }

  lemma UserIsWord(before: string, user: string, rest: string)
    requires '@' !in user && forall i :: i < |before| ==> !At(before + "sip:" + (user + " " + rest), "sip:", i)
    requires user != "" && NoSpace(user) && '>' !in user && '@' !in rest && '>' !in rest
    ensures ExtractSipUser(before + "sip:" + (user + " " + rest)) == Some(user)
  {
    hide IndexOf, At, Fields;
    SipFound(before, user + " " + rest);
    FieldsOfWord(user, ' ', rest);
    assert user + [' '] + rest == user + " " + rest;
    assert IndexAny(user + " " + rest, {'@'}) < 0 && IndexAny(user + " " + rest, {'>'}) < 0;
  }

  lemma UpTo(user: string, stop: char, rest: string)
    requires stop !in user
    ensures IndexAny(user + [stop] + rest, {stop}) == |user| && (user + [stop] + rest)[..|user|] == user
  {
    var s := user + [stop] + rest;
    assert s[|user|] == stop;
    assert forall i :: 0 <= i < |user| ==> s[i] == user[i];
    IndexAnyIs(s, {stop}, |user|);
  }

  lemma NoSipNoUser(hdr: string)
    requires !Contains(hdr, "sip:")
    ensures ExtractSipUser(hdr) == Some("")
  {
  }

  /** An INVITE that names no call is dialled under a made-up Call-ID: the BYE has it,
      the responses have none, so the client cannot match the two. */
  lemma NamelessInviteDisagrees(msg: string, remote: string, user: string, localTag: string, newCallID: string,
                                code: int, reason: string, tag: string, minted: string, state: CallState, localIP: string, nonce: string)
    requires ExtractSipUser(ParseHeader(msg, "From")) == Some(user) && ParseHeader(msg, "Call-ID") == ""
    requires NoSpace(newCallID) && newCallID != "" && NoSpace(localTag) && NoSpace(tag) && NoSpace(minted) && NoSpace(nonce)
    requires NoCrlf(reason) && IpText(localIP) && '\n' !in remote && state in {Answering, Active, Ended}
    ensures var end := TeardownMessage(Outbound, state, localTag, OutboundPlan(msg, remote, user, localTag, newCallID), localIP, nonce);
            && end.Bye? && ParseHeader(end.text, "Call-ID") == newCallID
            && ParseHeader(BuildResponse(msg, code, reason, "", "", tag, minted), "Call-ID") == ""
  {
    hide ParseHeader, TrimSpace, CSeqNumber, ContactUri, ExtractSipUser, Contains, BuildResponse, RenderBye, Itoa, MethodOf, CSeqMethod,
      RequestUriOf, ViaText, BodyOf, IpText;
    var plan := OutboundPlan(msg, remote, user, localTag, newCallID);
    ParsedIsLine(msg, "From");
    ParsedIsLine(msg, "To");
    ParsedIsLine(msg, "Contact");
    ExtractedUserIsLine(ParseHeader(msg, "From"));
    ContactUriIsLine(ParseHeader(msg, "Contact"), remote, user);
    SuffixWord(ParseHeader(msg, "To"), ";tag=" + localTag);
    assert ParseHeader(msg, "To") + (";tag=" + localTag) == plan.from;
    WordIsLine(newCallID);
    ResponseEchoesRequest(msg, code, reason, "", "", tag, minted);
    ByeReads(plan.reqURI, localIP, nonce, plan.from, plan.to, plan.callID, Wrap64(plan.inviteCSeq + 1));
  }

  lemma FirstIsNot(hdr: string)
    requires hdr != "" && hdr[0] == '<'
    ensures forall i :: i < 1 ==> !At(hdr, "sip:", i)
  {
    if At(hdr, "sip:", 0) {
      AtChar(hdr, "sip:", 0, 0);
    }
  }

  /** The final error of an unanswered dial is a response like any other. */
  lemma UnansweredDialGetsPinnedTag(msg: string, remote: string, user: string, localTag: string, newCallID: string,
                                    state: CallState, localIP: string, nonce: string)
    requires msg != "" && ParseHeader(msg, "Call-ID") != "" && state in {Init, Dialing} && NoSpace(localTag)
    ensures var end := TeardownMessage(Outbound, state, localTag, OutboundPlan(msg, remote, user, localTag, newCallID), localIP, nonce);
            && end.Final480?
            && ParseHeader(end.text, "Via") == ParseHeader(msg, "Via")
            && ParseHeader(end.text, "CSeq") == ParseHeader(msg, "CSeq")
            && ParseHeader(end.text, "Call-ID") == ParseHeader(msg, "Call-ID")
            && (Contains(ParseHeader(msg, "To"), "tag=") || ParseHeader(end.text, "To") == ParseHeader(msg, "To") + ";tag=" + localTag)
  {
    hide ParseHeader, CSeqNumber, ContactUri, Contains, BuildResponse;
    NoLfNoCrlf("Temporarily Unavailable");
    ResponseEchoesRequest(msg, 480, "Temporarily Unavailable", "", "", ";tag=" + localTag, "");
    assert ParseHeader(msg, "To") + (";tag=" + localTag) == ParseHeader(msg, "To") + ";tag=" + localTag;
  }

  /** Which message ends which call. */
  lemma TeardownCases(direction: Direction, state: CallState, localTag: string, plan: Plan, localIP: string, nonce: string)
    ensures var end := TeardownMessage(direction, state, localTag, plan, localIP, nonce);
            var known, ringing := plan.remote.Some? && plan.callID != "", direction.Inbound? && state.Init?;
            && (end.Cancel? <==> known && ringing)
            && (end.Final480? <==> known && !ringing && state in {Init, Dialing} && plan.inviteReq != "")
            && (end.Bye? <==> known && state in {Answering, Active, Ended})
            && (end.Nothing? <==> !known || (!ringing && state in {Init, Dialing} && plan.inviteReq == ""))
  {
    hide RenderCancel, RenderBye, CancelMessage, BuildResponse;
  }

  /** A CANCEL can be derived from an INVITE exactly when everything it has to repeat
      is there to be read. */
  lemma CancelExistsIff(invite: string, localIP: string)
    ensures CancelMessage(invite, localIP) != "" <==>
            && localIP != "" && RequestUriOf(invite) != "" && ViaBranchOf(invite) != ""
            && forall name :: name in ["From", "To", "Call-ID", "CSeq"] ==> ParseHeader(invite, name) != ""
  {
    hide ParseHeader, BranchOfVia, Fields, Headers;
    assert ["From", "To", "Call-ID", "CSeq"][0] == "From" && ["From", "To", "Call-ID", "CSeq"][1] == "To"
           && ["From", "To", "Call-ID", "CSeq"][2] == "Call-ID" && ["From", "To", "Call-ID", "CSeq"][3] == "CSeq";
    if invite == "" {
      EmptyHasNoUri();
    }
  }

  lemma EmptyHasNoUri()
    ensures RequestUriOf("") == ""
  {
  }

  /** For a ringing call without a usable INVITE the CANCEL is made from the plan: its
      address, branch, dialog headers and number read back. */
  lemma FallbackCancelReads(localTag: string, plan: Plan, localIP: string, nonce: string)
    requires plan.remote.Some? && plan.callID != "" && CancelMessage(plan.inviteReq, localIP) == ""
    requires plan.reqURI != "" && NoSpace(plan.reqURI) && IpText(localIP) && IsInt64(plan.inviteCSeq)
    requires NoCrlf(plan.inviteBranch) && NoStop(plan.inviteBranch) && Trimmed(plan.inviteBranch)
    requires NoCrlf(plan.from) && NoCrlf(plan.to) && NoCrlf(plan.callID) && Trimmed(plan.from) && Trimmed(plan.to) && Trimmed(plan.callID)
    ensures var end := TeardownMessage(Inbound, Init, localTag, plan, localIP, nonce);
            && end.Cancel? && MethodOf(end.text) == "CANCEL" && CSeqMethod(ParseHeader(end.text, "CSeq")) == "CANCEL"
            && RequestUriOf(end.text) == plan.reqURI && ViaBranchOf(end.text) == plan.inviteBranch
            && ParseHeader(end.text, "From") == plan.from && ParseHeader(end.text, "To") == plan.to
            && ParseHeader(end.text, "Call-ID") == plan.callID && CSeqNumber(ParseHeader(end.text, "CSeq")) == plan.inviteCSeq
  {
    hide ParseHeader, RequestUriOf, ViaBranchOf, MethodOf, CSeqMethod, CSeqNumber, RenderCancel, CancelMessage, NoStop, IpText;
    CancelReads(plan.reqURI, localIP, plan.inviteBranch, plan.from, plan.to, plan.callID, plan.inviteCSeq);
  }

  /** The plan stored when an INVITE is sent to a registered contact. */
  function RingPlan(invite: string, remote: string, contactURI: string, user: string, local: string, branch: string,
                    callerFrom: string, shortID: string, callID: string): Plan {
    Plan(Some(remote), contactURI, callerFrom + ";tag=cb" + shortID, "<sip:" + user + "@" + local + ">",
         callID, 1, branch, invite, user)
  }

  lemma CallerFromTells(peer: string, a: string, b: string, rest: string)
    ensures CallerFrom(peer, a) + rest == CallerFrom(peer, b) + rest <==> a == b
  {
    var head := if peer == "" then "<sip:unknown@" else "\"" + peer + "\" <sip:" + peer + "@";
    assert CallerFrom(peer, a) + rest == head + (a + (">" + rest)) && CallerFrom(peer, b) + rest == head + (b + (">" + rest));
    SameAround(head, a, b, ">" + rest);
  }

  lemma SameAround(head: string, a: string, b: string, tail: string)
    ensures head + (a + tail) == head + (b + tail) <==> a == b
  {
    if head + (a + tail) == head + (b + tail) {
      assert |a| == |b|;
      assert (head + (a + tail))[|head|..|head| + |a|] == a;
      assert (head + (b + tail))[|head|..|head| + |b|] == b;
    }
  }

  /** A printed To tells its user and its address: no address holds an @. */
  lemma ToTells(u: string, a: string, v: string, b: string)
    requires IpText(a) && IpText(b)
    ensures "<sip:" + u + "@" + a + ">" == "<sip:" + v + "@" + b + ">" <==> u == v && a == b
  {
    var s, t := "<sip:" + u + "@" + a + ">", "<sip:" + v + "@" + b + ">";
    if s == t {
      var i, j := |"<sip:" + u|, |"<sip:" + v|;
      assert s[i] == '@' && t[j] == '@';
      AtSignOnlyAt(s, "<sip:" + u, a);
      AtSignOnlyAt(t, "<sip:" + v, b);
      assert i == j;
      assert s[5..i] == u && t[5..j] == v && s[i + 1..|s| - 1] == a && t[j + 1..|t| - 1] == b;
    }
  }

  lemma AtSignOnlyAt(s: string, head: string, a: string)
    requires IpText(a) && s == head + "@" + a + ">"
    ensures forall k :: |head| < k < |s| ==> s[k] != '@'
  {
    forall k | |head| < k < |s|
      ensures s[k] != '@'
    {
      assert k < |s| - 1 ==> s[k] == a[k - |head| - 1] && a[k - |head| - 1] in a;
    }
  }

  /** The BYE of an answered inbound call against the INVITE that the answering
      client saw, the plan stored being of the contact invited last: (user, local)
      is the one that answered, (lastUser, lastLocal) the one invited last. As long
      as the answered plan is the one stored, Call-ID and number fit and the To of the
      200 OK is taken over. The From is the
      INVITE's exactly when both contacts are reached from one address; without a To
      in the 200 OK, the To is the INVITE's exactly when the user is the same too. */
  lemma InboundDialogAgrees(user: string, local: string, sdp: string, lastUser: string, lastLocal: string, lastInvite: string,
                            peer: string, shortID: string, callID: string, remote: string, contactURI: string,
                            ok: string, okRemote: string, okUser: string, state: CallState, localIP: string, nonce: string)
    requires NoCrlf(user) && IpText(local) && NoCrlf(lastUser) && IpText(lastLocal) && IpText(localIP)
    requires NoCrlf(peer) && NoSpace(shortID) && NoSpace(callID) && callID != ""
    requires '\n' !in okRemote && NoSpace(nonce) && NoCrlf(okUser)
    requires state in {Answering, Active, Ended}
    ensures var branch := "z9hG4bK" + shortID;
            var invite := RenderInvite(user, local, branch, CallerFrom(peer, local), shortID, callID, CallerHeaders(peer, local), sdp);
            var plan := RingPlan(lastInvite, remote, contactURI, lastUser, lastLocal, branch, CallerFrom(peer, lastLocal), shortID, callID);
            var end := TeardownMessage(Inbound, state, "", AnsweredPlan(plan, ok, okRemote, okUser), localIP, nonce);
            && end.Bye?
            && (ParseHeader(end.text, "From") == ParseHeader(invite, "From") <==> local == lastLocal)
            && (ParseHeader(ok, "To") != "" ==> ParseHeader(end.text, "To") == ParseHeader(ok, "To"))
            && (ParseHeader(ok, "To") == "" ==>
                  (ParseHeader(end.text, "To") == ParseHeader(invite, "To") <==> user == lastUser && local == lastLocal))
            && ParseHeader(end.text, "Call-ID") == ParseHeader(invite, "Call-ID")
            && CSeqNumber(ParseHeader(end.text, "CSeq")) == CSeqNumber(ParseHeader(invite, "CSeq")) + 1
  {
    hide ParseHeader, TrimSpace, BranchOfVia, CutBranch, CSeqNumber, ContactUri, CallerHeaders, CallerFrom, RenderInvite, RenderBye, Itoa,
      IpText, MethodOf, CSeqMethod, RequestUriOf, ViaText, BodyOf;
    var branch, seenFrom, from := "z9hG4bK" + shortID, CallerFrom(peer, local), CallerFrom(peer, lastLocal);
    var to := "<sip:" + lastUser + "@" + lastLocal + ">";
    var plan := RingPlan(lastInvite, remote, contactURI, lastUser, lastLocal, branch, from, shortID, callID);
    var answered := AnsweredPlan(plan, ok, okRemote, okUser);
    CallerFromIsLine(peer, local);
    CallerFromIsLine(peer, lastLocal);
    NoLfNoCrlf(shortID);
    NoLfNoCrlf(callID);
    NoLfNoCrlf(branch);
    InviteReads(user, local, branch, seenFrom, shortID, callID, CallerHeaders(peer, local), sdp);
    SuffixWord(seenFrom, ";tag=cb" + shortID);
    SuffixWord(from, ";tag=cb" + shortID);
    assert seenFrom + (";tag=cb" + shortID) == seenFrom + ";tag=cb" + shortID;
    assert from + (";tag=cb" + shortID) == from + ";tag=cb" + shortID;
    CallerFromTells(peer, local, lastLocal, ";tag=cb" + shortID);
    ToTells(user, local, lastUser, lastLocal);
    AddressIsLine("<sip:", lastUser, lastLocal, ">");
    ParsedIsLine(ok, "To");
    ParsedIsLine(ok, "Contact");
    ContactUriIsLine(ParseHeader(ok, "Contact"), okRemote, okUser);
    ContactUriNonEmpty(ParseHeader(ok, "Contact"), okRemote, okUser);
    InviteCSeqIsOne();
    ByeReads(answered.reqURI, localIP, nonce, answered.from, answered.to, answered.callID, 2);
  }

  /** The BYE built from any plan with clean texts reads back to the plan. */
  lemma PlanByeReads(plan: Plan, state: CallState, localIP: string, nonce: string)
    requires plan.remote.Some? && plan.callID != "" && NoCrlf(plan.reqURI) && IpText(localIP) && NoSpace(nonce)
    requires NoCrlf(plan.from) && NoCrlf(plan.to) && NoCrlf(plan.callID) && Trimmed(plan.from) && Trimmed(plan.to) && Trimmed(plan.callID)
    requires state in {Answering, Active, Ended}
    ensures var end := TeardownMessage(Inbound, state, "", plan, localIP, nonce);
            && end.Bye?
            && MethodOf(end.text) == "BYE" && (plan.reqURI != "" && NoSpace(plan.reqURI) ==> RequestUriOf(end.text) == plan.reqURI)
            && ParseHeader(end.text, "From") == plan.from && ParseHeader(end.text, "To") == plan.to
            && ParseHeader(end.text, "Call-ID") == plan.callID
            && CSeqNumber(ParseHeader(end.text, "CSeq")) == Wrap64(plan.inviteCSeq + 1)
  {
    hide ParseHeader, TrimSpace, CSeqNumber, RenderBye, Itoa, IpText, MethodOf, CSeqMethod, RequestUriOf, ViaText, BodyOf;
    ByeReads(plan.reqURI, localIP, nonce, plan.from, plan.to, plan.callID, Wrap64(plan.inviteCSeq + 1));
  }

  lemma ContactUriNonEmpty(contact: string, remote: string, user: string)
    ensures ContactUri(contact, Some(remote), user) != ""
  {
  }

  lemma InviteCSeqIsOne()
    ensures CSeqNumber("1 INVITE") == 1
  {
    hide Fields, Atoi;
    assert "1 INVITE" == "1" + [' '] + "INVITE";
    FieldsOfWord("1", ' ', "INVITE");
    assert Itoa(1) == "1";
    AtoiItoa(1);
  }
}
