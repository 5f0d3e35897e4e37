/** Ending a dialled or answered call towards the SIP side: the same message goes to
    the address of the dialog and to every address its account is registered at. */
module SipTeardown {
  import opened Text
  import opened SipMessages
  import opened SipDialogs

  /** A registration, its contact resolved if it can be. */
  datatype Contact = Contact(user: string, addr: Option<string>)

  datatype Sent = Sent(addr: string, text: string)

  /** What is drawn for the branch of the message to a target, and what the socket
      does with the two writes of it. */
  datatype Turn = Turn(nonce: string, first: bool, second: bool)

  function TextOf(end: Teardown): string {
    match end
    case Nothing => ""
    case Cancel(text) => text
    case Final480(text) => text
    case Bye(text) => text
  }

  // ---------------------------------------------------------------- whom it is sent to

  function Collect(seen: seq<string>, user: string, contacts: seq<Contact>): seq<string>
    decreases |contacts|
  {
    if contacts == [] then seen
    else
      var c := contacts[0];
      var passed := (user != "" && c.user != user) || c.addr.None? || c.addr.value in seen;
      Collect(if passed then seen else seen + [c.addr.value], user, contacts[1..])
  }

  ghost predicate RegisteredAt(user: string, contacts: seq<Contact>, addr: string) {
    exists i :: 0 <= i < |contacts| && contacts[i].addr == Some(addr) && (user == "" || contacts[i].user == user)
  }

  ghost predicate Distinct(addrs: seq<string>) {
    forall i, j :: 0 <= i < j < |addrs| ==> addrs[i] != addrs[j]
  }

  /** The addresses are those there were and those the account is registered at, each
      once; those there were come first. */
  lemma {:induction false} CollectsExactly(seen: seq<string>, user: string, contacts: seq<Contact>, addr: string)
    requires Distinct(seen)
    ensures Distinct(Collect(seen, user, contacts)) && seen <= Collect(seen, user, contacts)
    ensures addr in Collect(seen, user, contacts) <==> addr in seen || RegisteredAt(user, contacts, addr)
    decreases |contacts|
  {
    if contacts != [] {
      var c := contacts[0];
      var passed := (user != "" && c.user != user) || c.addr.None? || c.addr.value in seen;
      CollectsExactly(if passed then seen else seen + [c.addr.value], user, contacts[1..], addr);
      RegisteredStep(user, contacts, addr);
    }
  }

  lemma RegisteredStep(user: string, contacts: seq<Contact>, addr: string)
    requires contacts != []
    ensures RegisteredAt(user, contacts, addr) <==>
              (contacts[0].addr == Some(addr) && (user == "" || contacts[0].user == user)) || RegisteredAt(user, contacts[1..], addr)
  {
    var rest := contacts[1..];
    if i :| 0 <= i < |rest| && rest[i].addr == Some(addr) && (user == "" || rest[i].user == user) {
      assert contacts[i + 1] == rest[i];
    }
    if i :| 0 < i < |contacts| && contacts[i].addr == Some(addr) && (user == "" || contacts[i].user == user) {
      assert rest[i - 1] == contacts[i];
    }
  }

  // ---------------------------------------------------------------- what is sent

  /** Two copies, the second only behind a first that went out. */
  function Copies(direction: Direction, state: CallState, localTag: string, plan: Plan, localIP: string, addr: string, turn: Turn): seq<Sent> {
    var text := TextOf(TeardownMessage(direction, state, localTag, plan.(remote := Some(addr)), localIP, turn.nonce));
    if text == "" || !turn.first then []
    else [Sent(addr, text)] + if turn.second then [Sent(addr, text)] else []
  }

  function SentTo(direction: Direction, state: CallState, localTag: string, plan: Plan, localIP: string, addrs: seq<string>,
                  turns: seq<Turn>): seq<Sent>
    requires |turns| >= |addrs|
  {
    if addrs == [] then []
    else
      var n := |addrs| - 1;
      SentTo(direction, state, localTag, plan, localIP, addrs[..n], turns) + Copies(direction, state, localTag, plan, localIP, addrs[n], turns[n])
  }

  function Targets(plan: Plan, contacts: seq<Contact>): seq<string> {
    if plan.remote.None? then [] else Collect([plan.remote.value], plan.username, contacts)
  }

  method FindTargets(plan: Plan, contacts: seq<Contact>) returns (targets: seq<string>)
    requires plan.remote.Some?
    ensures targets == Targets(plan, contacts) && |targets| <= |contacts| + 1
  {
    targets := [plan.remote.value];
    assert contacts[0..] == contacts;
    for i := 0 to |contacts|
      invariant |targets| <= i + 1
      invariant Collect(targets, plan.username, contacts[i..]) == Targets(plan, contacts)
    {
      var c := contacts[i];
      assert contacts[i..][1..] == contacts[i + 1..];
      if plan.username != "" && c.user != plan.username {
        continue;
      }
      if c.addr.Some? && c.addr.value !in targets {
        targets := targets + [c.addr.value];
      }
    }
  }

  /** Collects the targets, then writes to each of them. */
  method SendDialogTeardown(direction: Direction, state: CallState, localTag: string, plan: Plan, localIP: string,
                            contacts: seq<Contact>, turns: seq<Turn>) returns (wire: seq<Sent>)
    requires |turns| > |contacts|
    requires !(direction.Inbound? && state.Init?)
    ensures |Targets(plan, contacts)| <= |turns|
    ensures wire == SentTo(direction, state, localTag, plan, localIP, Targets(plan, contacts), turns)
  {
    hide TeardownMessage, Collect;
    wire := [];
    if plan.remote.None? {
      return;
    }
    var targets := FindTargets(plan, contacts);
    for i := 0 to |targets|
      invariant wire == SentTo(direction, state, localTag, plan, localIP, targets[..i], turns)
    {
      assert targets[..i + 1][..i] == targets[..i];
      var end := TeardownMessage(direction, state, localTag, plan.(remote := Some(targets[i])), localIP, turns[i].nonce);
      var copies := WriteTwice(targets[i], TextOf(end), turns[i].first, turns[i].second);
      wire := wire + copies;
    }
    assert targets[..|targets|] == targets;
  }

  /** Stops at a first write that is refused. */
  method WriteTwice(addr: string, text: string, first: bool, second: bool) returns (sent: seq<Sent>)
    ensures sent == if text == "" || !first then [] else [Sent(addr, text)] + if second then [Sent(addr, text)] else []
  {
    sent := [];
    if text == "" {
      return;
    }
    for attempt := 1 to 3
      invariant sent == if attempt == 1 then [] else [Sent(addr, text)] + if attempt == 3 && second then [Sent(addr, text)] else []
      invariant attempt > 1 ==> first
    {
      if !(if attempt == 1 then first else second) {
        break;
      }
      sent := sent + [Sent(addr, text)];
    }
  }

  // ---------------------------------------------------------------- what it comes to

  /** How many datagrams went to an address. */
  function CopiesTo(wire: seq<Sent>, addr: string): nat {
    if wire == [] then 0 else CopiesTo(wire[..|wire| - 1], addr) + if wire[|wire| - 1].addr == addr then 1 else 0
  }

  lemma CopiesAppend(wire: seq<Sent>, s: Sent, addr: string)
    ensures CopiesTo(wire + [s], addr) == CopiesTo(wire, addr) + if s.addr == addr then 1 else 0
  {
    assert (wire + [s])[..|wire|] == wire;
  }

  lemma CopiesOfOne(wire: seq<Sent>, more: seq<Sent>, at: string, addr: string)
    requires |more| <= 2 && forall i :: 0 <= i < |more| ==> more[i].addr == at
    ensures CopiesTo(wire + more, addr) == CopiesTo(wire, addr) + if at == addr then |more| else 0
  {
    if |more| == 0 {
      assert wire + more == wire;
    } else if |more| == 1 {
      assert wire + more == wire + [more[0]];
      CopiesAppend(wire, more[0], addr);
    } else {
      assert wire + more == wire + [more[0]] + [more[1]];
      CopiesAppend(wire, more[0], addr);
      CopiesAppend(wire + [more[0]], more[1], addr);
    }
  }

  /** The plan of a dialog whose end can be told: clean texts and an address to name. */
  ghost predicate Tellable(plan: Plan) {
    && plan.remote.Some? && plan.callID != "" && plan.reqURI != "" && NoSpace(plan.reqURI)
    && NoCrlf(plan.from) && NoCrlf(plan.to) && NoCrlf(plan.callID)
    && Trimmed(plan.from) && Trimmed(plan.to) && Trimmed(plan.callID)
  }

  /** The datagram is a BYE that names the dialog of the plan. */
  ghost predicate EndsDialog(text: string, plan: Plan) {
    && MethodOf(text) == "BYE" && RequestUriOf(text) == plan.reqURI
    && ParseHeader(text, "From") == plan.from && ParseHeader(text, "To") == plan.to && ParseHeader(text, "Call-ID") == plan.callID
    && CSeqNumber(ParseHeader(text, "CSeq")) == Wrap64(plan.inviteCSeq + 1)
  }

  lemma OneTarget(direction: Direction, state: CallState, localTag: string, plan: Plan, localIP: string, addr: string, turn: Turn)
    requires Tellable(plan) && IpText(localIP) && NoSpace(turn.nonce) && state in {Answering, Active, Ended}
    ensures var sent := Copies(direction, state, localTag, plan, localIP, addr, turn);
            && |sent| == (if !turn.first then 0 else if turn.second then 2 else 1)
            && forall i :: 0 <= i < |sent| ==> sent[i].addr == addr && EndsDialog(sent[i].text, plan)
  {
    hide ParseHeader, MethodOf, RequestUriOf, CSeqNumber, RenderBye, CancelMessage, BuildResponse;
    var there := plan.(remote := Some(addr));
    NoLfNoCrlf(plan.reqURI);
    PlanByeReads(there, state, localIP, turn.nonce);
    SameBye(direction, state, localTag, there, localIP, turn.nonce);
    if TextOf(TeardownMessage(Inbound, state, "", there, localIP, turn.nonce)) == "" {
      EmptyIsNoBye();
    }
  }

  lemma EmptyIsNoBye()
    ensures MethodOf("") == ""
  {
  }

  /** A BYE is the same for either side and does not carry the local tag again. */
  lemma SameBye(direction: Direction, state: CallState, localTag: string, plan: Plan, localIP: string, nonce: string)
    requires state in {Answering, Active, Ended}
    ensures TeardownMessage(direction, state, localTag, plan, localIP, nonce) == TeardownMessage(Inbound, state, "", plan, localIP, nonce)
  {
    hide RenderBye, RenderCancel, CancelMessage, BuildResponse;
  }

  /** Every target gets its BYE: twice, once if only the first write is accepted, and
      not at all if that is refused; nobody else gets anything, and every one of them
      names the same dialog under the same Request-URI. */
  lemma {:induction false} ByeGoesToEveryTarget(direction: Direction, state: CallState, localTag: string, plan: Plan, localIP: string,
                                                addrs: seq<string>, turns: seq<Turn>)
    requires |turns| >= |addrs| && Distinct(addrs)
    requires Tellable(plan) && IpText(localIP) && state in {Answering, Active, Ended}
    requires forall i :: 0 <= i < |turns| ==> NoSpace(turns[i].nonce)
    ensures var wire := SentTo(direction, state, localTag, plan, localIP, addrs, turns);
            && (forall k :: 0 <= k < |addrs| ==>
                  CopiesTo(wire, addrs[k]) == if !turns[k].first then 0 else if turns[k].second then 2 else 1)
            && (forall addr :: addr !in addrs ==> CopiesTo(wire, addr) == 0)
            && (forall i :: 0 <= i < |wire| ==> EndsDialog(wire[i].text, plan))
    decreases |addrs|
  {
    hide *;
    if addrs == [] {
      NothingIsSent(direction, state, localTag, plan, localIP, turns);
    } else {
      var n := |addrs| - 1;
      var wire := SentTo(direction, state, localTag, plan, localIP, addrs, turns);
      var before := SentTo(direction, state, localTag, plan, localIP, addrs[..n], turns);
      var more := Copies(direction, state, localTag, plan, localIP, addrs[n], turns[n]);
      DistinctInit(addrs);
      ByeGoesToEveryTarget(direction, state, localTag, plan, localIP, addrs[..n], turns);
      OneTarget(direction, state, localTag, plan, localIP, addrs[n], turns[n]);
      LastIsSent(direction, state, localTag, plan, localIP, addrs, turns);
      forall addr
        ensures CopiesTo(wire, addr) == CopiesTo(before, addr) + if addrs[n] == addr then |more| else 0
      {
        CopiesOfOne(before, more, addrs[n], addr);
      }
      forall k | 0 <= k < |addrs|
        ensures CopiesTo(wire, addrs[k]) == if !turns[k].first then 0 else if turns[k].second then 2 else 1
      {
        assert k < n ==> addrs[..n][k] == addrs[k];
      }
    }
  }

  lemma DistinctInit(addrs: seq<string>)
    requires Distinct(addrs) && addrs != []
    ensures var n := |addrs| - 1;
            && Distinct(addrs[..n]) && addrs[n] !in addrs[..n] && forall addr :: addr in addrs[..n] ==> addr in addrs && addr != addrs[n]
  {
  }

  lemma NothingIsSent(direction: Direction, state: CallState, localTag: string, plan: Plan, localIP: string, turns: seq<Turn>)
    ensures SentTo(direction, state, localTag, plan, localIP, [], turns) == []
    ensures forall addr :: CopiesTo([], addr) == 0
  {
  }

  lemma LastIsSent(direction: Direction, state: CallState, localTag: string, plan: Plan, localIP: string, addrs: seq<string>,
                   turns: seq<Turn>)
    requires |turns| >= |addrs| > 0
    ensures var n := |addrs| - 1;
            SentTo(direction, state, localTag, plan, localIP, addrs, turns)
            == SentTo(direction, state, localTag, plan, localIP, addrs[..n], turns)
               + Copies(direction, state, localTag, plan, localIP, addrs[n], turns[n])
  {
    hide Copies;
  }

  /** So the end of a call that was answered, or dialled and up, reaches the address of
      its dialog and every address its account is registered at, and no other, as far
      as the socket accepts the writes. */
  lemma EndReachesTheAccount(direction: Direction, state: CallState, localTag: string, plan: Plan, localIP: string, contacts: seq<Contact>,
                             turns: seq<Turn>, addr: string)
    requires |turns| >= |Targets(plan, contacts)|
    requires Tellable(plan) && IpText(localIP) && state in {Answering, Active, Ended}
    requires forall i :: 0 <= i < |turns| ==> NoSpace(turns[i].nonce) && turns[i].first && turns[i].second
    ensures var wire := SentTo(direction, state, localTag, plan, localIP, Targets(plan, contacts), turns);
            && CopiesTo(wire, addr) == (if plan.remote == Some(addr) || RegisteredAt(plan.username, contacts, addr) then 2 else 0)
            && forall i :: 0 <= i < |wire| ==> EndsDialog(wire[i].text, plan)
  {
    hide SentTo, EndsDialog, RegisteredAt;
    var addrs := Targets(plan, contacts);
    CollectsExactly([plan.remote.value], plan.username, contacts, addr);
    ByeGoesToEveryTarget(direction, state, localTag, plan, localIP, addrs, turns);
    if addr in addrs {
      var k :| 0 <= k < |addrs| && addrs[k] == addr;
    }
  }

  /** The plans the gateway stores know the account; without one every registered
      phone would get the message. */
  lemma PlansNameTheAccount(msg: string, remote: string, user: string, localTag: string, newCallID: string, invite: string,
                            uri: string, local: string, branch: string, callerFrom: string, shortID: string, callID: string,
                            ok: string, okRemote: string, okUser: string, contacts: seq<Contact>, addr: string)
    ensures OutboundPlan(msg, remote, user, localTag, newCallID).username == user
    ensures var plan := RingPlan(invite, remote, uri, user, local, branch, callerFrom, shortID, callID);
            plan.username == AnsweredPlan(plan, ok, okRemote, okUser).username == user
    ensures RegisteredAt("", contacts, addr) <==> exists i :: 0 <= i < |contacts| && contacts[i].addr == Some(addr)
  {
  }
}
