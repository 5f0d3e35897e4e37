/** Ringing the registered clients for one inbound cellular call: invite passes,
    the sweep that invites contacts which re-register, and the CANCELs of the
    teardown, interleaved in any order. */
module SipRinging {
  import opened Text
  import opened SipMessages
  import opened SipDialogs

  const MAX_INVITE_ATTEMPTS: nat := 8

  /** One INVITE sent to one contact: where to, and its exact bytes. */
  datatype Attempt = Attempt(addr: Option<string>, req: string)

  /** The inbound call being rung, named by the modem's own id for it. */
  datatype Call = Call(modemID: string, peer: string, mediaPort: nat) {
    function ID(): string { "in-" + modemID }
    function ShortID(): string { if |modemID| > 8 then modemID[..8] else modemID }
    function Branch(): string { "z9hG4bK" + ShortID() }

    ghost predicate Valid() {
      modemID != "" && NoSpace(modemID) && NoCrlf(peer)
    }
  }

  /** A registration as one pass finds it: user and contact as read from REGISTER
      headers, the address the contact resolves to, if any, and the local address that
      reaches it. */
  datatype Registration = Registration(user: string, contact: string, addr: Option<string>, local: string) {
    ghost predicate Valid() {
      NoCrlf(user) && NoCrlf(contact) && (addr.Some? ==> '\n' !in addr.value) && IpText(local)
    }
  }

  function OfferSdp(local: string, port: nat): string {
    Line("v=0", Line("o=cellbridge 0 0 IN IP4 " + local, Line("s=CellBridge", Line("c=IN IP4 " + local,
      Line("t=0 0", Line("m=audio " + Itoa(port) + " RTP/AVP 0", Line("a=rtpmap:0 PCMU/8000", "")))))))
  }

  function InviteFor(call: Call, reg: Registration): string {
    RenderInvite(reg.user, reg.local, call.Branch(), CallerFrom(call.peer, reg.local), call.ShortID(), call.ID(),
                 CallerHeaders(call.peer, reg.local), OfferSdp(reg.local, call.mediaPort))
  }

  function PlanFor(call: Call, reg: Registration): Plan
    requires reg.addr.Some?
  {
    RingPlan(InviteFor(call, reg), reg.addr.value, ContactUri(reg.contact, reg.addr, reg.user), reg.user, reg.local,
             call.Branch(), CallerFrom(call.peer, reg.local), call.ShortID(), call.ID())
  }

  // ---------------------------------------------------------------- the session's record of invitations

  predicate Invited(invites: seq<Attempt>, addr: Option<string>) {
    exists i :: 0 <= i < |invites| && invites[i].addr == addr
  }

  predicate IsNew(invites: seq<Attempt>, a: Attempt) {
    a.addr.Some? && a.req != "" && !Invited(invites, a.addr) && |invites| < MAX_INVITE_ATTEMPTS
  }

  function Remember(invites: seq<Attempt>, a: Attempt): seq<Attempt> {
    if IsNew(invites, a) then invites + [a] else invites
  }

  /** A datagram sent; a CANCEL with the teardown that sent it. */
  datatype Datagram = InviteTo(addr: string, text: string) | CancelTo(teardown: nat, addr: string, text: string)

  /** What a ring pass is doing between two of its atomic steps. */
  datatype Pass = Idle | Claimed(reg: Registration) | Planned(reg: Registration)

  datatype Teardown =
    | Decided(plan: Plan)
    | Cancelling(plan: Plan, all: seq<Attempt>, todo: seq<Attempt>, repeat: bool, refused: seq<Attempt>)

  /** How far the answer of the call is: the pickup won, the plan read, the answered
      plan stored. */
  datatype Answer =
    | NotAnswered
    | PickedUp
    | PlanRead(read: Plan)
    | PlanStored(read: Plan, ok: string, remote: string)

  datatype Ring = Ring(state: CallState, invites: seq<Attempt>, plan: Option<Plan>, pass: Pass,
                       wire: seq<Datagram>, teardowns: seq<Teardown>, answer: Answer)

  const NOT_RUNG: Ring := Ring(Init, [], None, Idle, [], [], NotAnswered)

  // ---------------------------------------------------------------- atomic steps

  /** A pass claims an address before it sends anything there. */
  function ClaimAddress(r: Ring, call: Call, reg: Registration): Ring {
    var a := Attempt(reg.addr, InviteFor(call, reg));
    if r.pass != Idle || reg.addr.None? then r
    else if IsNew(r.invites, a) then r.(invites := Remember(r.invites, a), pass := Claimed(reg))
    else r
  }

  function RecordPlan(r: Ring, call: Call): Ring {
    match r.pass
    case Claimed(reg) => if reg.addr.Some? then r.(plan := Some(PlanFor(call, reg)), pass := Planned(reg)) else r
    case _ => r
  }

  function SendInvite(r: Ring, call: Call, up: bool): Ring {
    match r.pass
    case Planned(reg) =>
      if up && reg.addr.Some? then
        r.(wire := r.wire + [InviteTo(reg.addr.value, InviteFor(call, reg))], pass := Idle)
      else r.(pass := Idle)
    case _ => r
  }

  /** The 200 OK's handler claims the pickup. */
  function ClaimPickup(r: Ring): Ring {
    if r.state.Init? && r.answer.NotAnswered? then r.(state := Answering, answer := PickedUp) else r
  }

  function ReadPlan(r: Ring): Ring {
    if r.answer.PickedUp? then r.(answer := PlanRead(if r.plan.Some? then r.plan.value else NO_PLAN)) else r
  }

  /** The answered plan, None when the dialog's To has no user to read. */
  function Folded(plan: Plan, ok: string, remote: string): Option<Plan> {
    match ExtractSipUser(AnsweredTo(plan, ok))
    case None => None
    case Some(user) => Some(AnsweredPlan(plan, ok, remote, user))
  }

  function StoreAnswer(r: Ring, ok: string, remote: string): Ring {
    match r.answer
    case PlanRead(read) =>
      if Folded(read, ok, remote).Some? then r.(plan := Folded(read, ok, remote), answer := PlanStored(read, ok, remote)) else r
    case _ => r
  }

  /** The teardown of a call nobody picked up starts once a plan is stored. */
  function DecideTeardown(r: Ring): Ring {
    if r.state.Init? && r.plan.Some? then r.(teardowns := r.teardowns + [Decided(r.plan.value)]) else r
  }

  function SnapshotInvites(r: Ring, t: nat): Ring
    requires t < |r.teardowns|
  {
    match r.teardowns[t]
    case Decided(plan) =>
      var all := if r.invites == [] then [Attempt(plan.remote, plan.inviteReq)] else r.invites;
      r.(teardowns := r.teardowns[t := Cancelling(plan, all, all, false, [])])
    case _ => r
  }

  /** The CANCEL for one attempt; its own bytes come first, the stored plan is
      the fallback. */
  function CancelText(a: Attempt, plan: Plan, localIP: string): string {
    var own := CancelMessage(a.req, localIP);
    if own != "" then own
    else match TeardownMessage(Inbound, Init, "", plan.(remote := a.addr), localIP, "")
         case Cancel(text) => text
         case _ => ""
  }

  /** Where the cancel loop goes after a write: a first copy that went out is
      repeated once, anything else moves on to the next attempt. */
  function AfterWrite(td: Teardown, up: bool): Teardown
    requires td.Cancelling? && td.todo != []
  {
    if up && !td.repeat then td.(repeat := true)
    else td.(todo := td.todo[1..], repeat := false,
             refused := if !up && !td.repeat then td.refused + [td.todo[0]] else td.refused)
  }

  /** One write of the cancel loop. */
  function CancelNext(r: Ring, t: nat, localIP: string, up: bool): Ring
    requires t < |r.teardowns|
  {
    var td := r.teardowns[t];
    if td.Decided? || td.todo == [] then r
    else
      var a := td.todo[0];
      var text := CancelText(a, td.plan, localIP);
      if a.addr.None? || text == "" then
        r.(teardowns := r.teardowns[t := td.(todo := td.todo[1..], repeat := false, refused := td.refused + [a])])
      else
        r.(wire := if up then r.wire + [CancelTo(t, a.addr.value, text)] else r.wire,
           teardowns := r.teardowns[t := AfterWrite(td, up)])
  }

  datatype Step =
    | Claim(reg: Registration)
    | StorePlan
    | Write(up: bool)
    | Move(state: CallState)
    | PickUp
    | TakePlan
    | StoreOk(ok: string, remote: string)
    | BeginTeardown
    | Snapshot(t: nat)
    | WriteCancel(t: nat, localIP: string, up: bool)

  ghost predicate Allowed(r: Ring, step: Step) {
    match step
    case Claim(reg) => reg.Valid()
    case Move(state) => !state.Init?
    case StoreOk(_, remote) => '\n' !in remote
    case Snapshot(t) => t < |r.teardowns|
    case WriteCancel(t, localIP, _) => t < |r.teardowns| && IpText(localIP)
    case _ => true
  }

  ghost function Do(r: Ring, call: Call, step: Step): Ring
    requires Allowed(r, step)
  {
    match step
    case Claim(reg) => ClaimAddress(r, call, reg)
    case StorePlan => RecordPlan(r, call)
    case Write(up) => SendInvite(r, call, up)
    case Move(state) => r.(state := state)
    case PickUp => ClaimPickup(r)
    case TakePlan => ReadPlan(r)
    case StoreOk(ok, remote) => StoreAnswer(r, ok, remote)
    case BeginTeardown => DecideTeardown(r)
    case Snapshot(t) => SnapshotInvites(r, t)
    case WriteCancel(t, localIP, up) => CancelNext(r, t, localIP, up)
  }

  /** run is a sequence of states, one step apart, from the unrung call. */
  ghost predicate IsRun(call: Call, run: seq<Ring>, steps: seq<Step>) {
    && |run| == |steps| + 1 && run[0] == NOT_RUNG
    && forall i :: 0 <= i < |steps| ==> Allowed(run[i], steps[i]) && run[i + 1] == Do(run[i], call, steps[i])
  }

  // ---------------------------------------------------------------- invariant

  ghost predicate Rung(call: Call, a: Attempt) {
    exists reg: Registration :: reg.Valid() && reg.addr.Some? && a == Attempt(reg.addr, InviteFor(call, reg))
  }

  ghost predicate Cancels(d: Datagram, a: Attempt) {
    && d.CancelTo? && a.addr == Some(d.addr) && MethodOf(d.text) == "CANCEL"
    && exists ip :: IpText(ip) && d.text == CancelMessage(a.req, ip) && d.text != ""
  }

  function InviteCount(wire: seq<Datagram>): nat {
    if wire == [] then 0
    else InviteCount(wire[..|wire| - 1]) + if wire[|wire| - 1].InviteTo? then 1 else 0
  }

  ghost predicate RecordOk(call: Call, invites: seq<Attempt>) {
    && |invites| <= MAX_INVITE_ATTEMPTS
    && (forall i :: 0 <= i < |invites| ==> Rung(call, invites[i]))
    && (forall i, j :: 0 <= i < j < |invites| ==> invites[i].addr != invites[j].addr)
  }

  ghost predicate OnWire(wire: seq<Datagram>, addr: string) {
    exists i :: 0 <= i < |wire| && wire[i].InviteTo? && wire[i].addr == addr
  }

  ghost predicate PassOk(r: Ring, call: Call) {
    match r.pass
    case Idle => InviteCount(r.wire) <= |r.invites|
    case Claimed(reg) => PendingOk(r, call, reg)
    case Planned(reg) => PendingOk(r, call, reg)
  }

  ghost predicate PendingOk(r: Ring, call: Call, reg: Registration) {
    && reg.Valid() && reg.addr.Some? && Attempt(reg.addr, InviteFor(call, reg)) in r.invites
    && !OnWire(r.wire, reg.addr.value) && InviteCount(r.wire) < |r.invites|
  }

  ghost predicate WireOk(r: Ring) {
    && (forall i :: 0 <= i < |r.wire| && r.wire[i].InviteTo? ==> Attempt(Some(r.wire[i].addr), r.wire[i].text) in r.invites)
    && (forall i, j :: 0 <= i < j < |r.wire| && r.wire[i].InviteTo? && r.wire[j].InviteTo? ==> r.wire[i].addr != r.wire[j].addr)
  }

  /** Every CANCEL is for an invitation in the snapshot of the teardown that sent it. */
  ghost predicate CancelsOk(r: Ring) {
    forall i :: 0 <= i < |r.wire| && r.wire[i].CancelTo? ==> FromSnapshot(r, r.wire[i])
  }

  ghost predicate FromSnapshot(r: Ring, d: Datagram)
    requires d.CancelTo?
  {
    d.teardown < |r.teardowns| && r.teardowns[d.teardown].Cancelling? && exists a :: a in r.teardowns[d.teardown].all && Cancels(d, a)
  }

  /** Until an answered plan is stored, the stored plan is that of a claimed
      registration; and so is the plan the answer started from, if there was one. */
  ghost predicate PlanOk(r: Ring, call: Call) {
    && (r.plan.Some? && !r.answer.PlanStored? ==> exists reg: Registration :: PlanOf(r, call, reg, r.plan.value))
    && (r.answer.PlanRead? || r.answer.PlanStored? ==>
          r.answer.read == NO_PLAN || exists reg: Registration :: PlanOf(r, call, reg, r.answer.read))
    && (r.state.Init? ==> r.answer.NotAnswered?)
    && (r.answer.PlanStored? ==> '\n' !in r.answer.remote && Folded(r.answer.read, r.answer.ok, r.answer.remote).Some?)
  }

  ghost predicate PlanOf(r: Ring, call: Call, reg: Registration, plan: Plan) {
    && reg.Valid() && reg.addr.Some? && Attempt(reg.addr, InviteFor(call, reg)) in r.invites
    && plan == PlanFor(call, reg)
  }

  /** Teardown t has put a CANCEL for the attempt on the wire. */
  ghost predicate Cancelled(wire: seq<Datagram>, t: nat, a: Attempt) {
    exists i :: 0 <= i < |wire| && wire[i].CancelTo? && wire[i].teardown == t && Cancels(wire[i], a)
  }

  ghost predicate TeardownOk(r: Ring, t: nat)
    requires t < |r.teardowns|
  {
    var td := r.teardowns[t];
    td.Cancelling? ==>
      && td.all != [] && (forall a :: a in td.all ==> a in r.invites)
      && (forall a :: a in td.todo ==> a in td.all)
      && (td.repeat ==> td.todo != [] && Cancelled(r.wire, t, td.todo[0]))
      && (forall a :: a in td.all ==> a in td.todo || a in td.refused || Cancelled(r.wire, t, a))
  }

  ghost predicate Inv(r: Ring, call: Call) {
    && RecordOk(call, r.invites) && PassOk(r, call) && WireOk(r) && CancelsOk(r) && PlanOk(r, call)
    && (forall t :: 0 <= t < |r.teardowns| ==> r.teardowns[t].Decided? ==> r.invites != [])
    && (forall t :: 0 <= t < |r.teardowns| ==> TeardownOk(r, t))
  }

  lemma RungHasCancel(call: Call, a: Attempt, plan: Plan, localIP: string)
    requires call.Valid() && Rung(call, a) && IpText(localIP)
    ensures a.addr.Some? && CancelMessage(a.req, localIP) != ""
    ensures CancelText(a, plan, localIP) == CancelMessage(a.req, localIP)
  {
    hide CancelMessage, RenderInvite, CallerFrom, CallerHeaders, OfferSdp, TeardownMessage;
    var reg: Registration :| reg.Valid() && reg.addr.Some? && a == Attempt(reg.addr, InviteFor(call, reg));
    CallText(call);
    RungInviteHasCancel(reg.user, reg.local, call.peer, call.ShortID(), call.ID(), OfferSdp(reg.local, call.mediaPort), localIP);
  }

  /** For an attempt without an INVITE a CANCEL can be derived from, the stored plan
      gives it: out of its own INVITE, or field by field. An attempt without an address
      gets none. */
  lemma CancelTextFromPlan(a: Attempt, plan: Plan, localIP: string)
    requires CancelMessage(a.req, localIP) == "" && plan.callID != ""
    requires plan.reqURI != "" && NoSpace(plan.reqURI) && IpText(localIP) && IsInt64(plan.inviteCSeq)
    requires NoCrlf(plan.inviteBranch) && NoStop(plan.inviteBranch) && Trimmed(plan.inviteBranch)
    requires NoCrlf(plan.from) && NoCrlf(plan.to) && NoCrlf(plan.callID) && Trimmed(plan.from) && Trimmed(plan.to) && Trimmed(plan.callID)
    ensures var text := CancelText(a, plan, localIP);
            && (a.addr.None? ==> text == "")
            && (a.addr.Some? && CancelMessage(plan.inviteReq, localIP) != "" ==> text == CancelMessage(plan.inviteReq, localIP))
            && (a.addr.Some? && CancelMessage(plan.inviteReq, localIP) == "" ==>
                  && MethodOf(text) == "CANCEL" && RequestUriOf(text) == plan.reqURI && ViaBranchOf(text) == plan.inviteBranch
                  && ParseHeader(text, "From") == plan.from && ParseHeader(text, "To") == plan.to
                  && ParseHeader(text, "Call-ID") == plan.callID && CSeqNumber(ParseHeader(text, "CSeq")) == plan.inviteCSeq)
  {
    hide ParseHeader, RequestUriOf, ViaBranchOf, MethodOf, CSeqMethod, CSeqNumber, RenderCancel, CancelMessage, NoStop, IpText;
    if a.addr.Some? && CancelMessage(plan.inviteReq, localIP) == "" {
      FallbackCancelReads("", plan.(remote := a.addr), localIP, "");
    }
  }

  lemma CallText(call: Call)
    requires call.Valid()
    ensures NoSpace(call.ID()) && NoSpace(call.ShortID()) && NoSpace(call.Branch())
    ensures NoCrlf(call.ID()) && NoCrlf(call.ShortID()) && NoCrlf(call.Branch()) && Trimmed(call.ID()) && call.ID() != ""
  {
    NoLfNoCrlf(call.ID());
    NoLfNoCrlf(call.ShortID());
    NoLfNoCrlf(call.Branch());
  }

  lemma InitHolds(call: Call)
    ensures Inv(NOT_RUNG, call)
  {
  }

  lemma ClaimKeeps(r: Ring, call: Call, reg: Registration)
    requires Inv(r, call) && reg.Valid()
    ensures Inv(ClaimAddress(r, call, reg), call)
  {
    hide InviteFor, CancelMessage, PlanFor, Cancels;
    var a := Attempt(reg.addr, InviteFor(call, reg));
    if r.pass == Idle && reg.addr.Some? && IsNew(r.invites, a) {
      assert Rung(call, a);
      forall i | 0 <= i < |r.wire| && r.wire[i].InviteTo?
        ensures r.wire[i].addr != reg.addr.value
      {
        var b := Attempt(Some(r.wire[i].addr), r.wire[i].text);
        var k :| 0 <= k < |r.invites| && r.invites[k] == b;
      }
      var s := ClaimAddress(r, call, reg);
      assert forall b :: b in r.invites ==> b in s.invites;
      assert s.invites[|r.invites|] == a;
      CancelsStay(r, s);
      PlanStays(r, s, call);
      TeardownsStay(r, s);
    }
  }

  /** Nothing a teardown relies on is lost while invitations and wire only grow. */
  lemma TeardownsStay(r: Ring, s: Ring)
    requires forall t :: 0 <= t < |r.teardowns| ==> TeardownOk(r, t)
    requires s.teardowns == r.teardowns && r.wire <= s.wire && forall a :: a in r.invites ==> a in s.invites
    ensures forall t :: 0 <= t < |s.teardowns| ==> TeardownOk(s, t)
  {
    hide Cancels;
    forall t | 0 <= t < |s.teardowns|
      ensures TeardownOk(s, t)
    {
      assert TeardownOk(r, t);
      TeardownStays(r, s, t);
    }
  }

  lemma TeardownStays(r: Ring, s: Ring, t: nat)
    requires t < |r.teardowns| && TeardownOk(r, t) && r.wire <= s.wire && forall a :: a in r.invites ==> a in s.invites
    requires t < |s.teardowns| && s.teardowns[t] == r.teardowns[t]
    ensures TeardownOk(s, t)
  {
    hide Cancels, Cancelled;
    WireGrows(r.wire, s.wire);
  }

  /** Snapshots are taken once and kept. */
  ghost predicate SnapshotsKept(r: Ring, s: Ring) {
    |r.teardowns| <= |s.teardowns|
    && forall t :: 0 <= t < |r.teardowns| && r.teardowns[t].Cancelling? ==>
         s.teardowns[t].Cancelling? && s.teardowns[t].all == r.teardowns[t].all
  }

  lemma CancelsStay(r: Ring, s: Ring)
    requires CancelsOk(r) && SnapshotsKept(r, s) && r.wire <= s.wire
    requires forall i :: |r.wire| <= i < |s.wire| ==> s.wire[i].InviteTo?
    ensures CancelsOk(s)
  {
    hide Cancels;
    forall i | 0 <= i < |s.wire| && s.wire[i].CancelTo?
      ensures FromSnapshot(s, s.wire[i])
    {
      assert s.wire[i] == r.wire[i];
      assert FromSnapshot(r, r.wire[i]);
    }
  }

  lemma PlanStays(r: Ring, s: Ring, call: Call)
    requires PlanOk(r, call) && s.plan == r.plan && s.answer == r.answer && forall a :: a in r.invites ==> a in s.invites
    requires s.state.Init? ==> r.state.Init?
    ensures PlanOk(s, call)
  {
    hide InviteFor, PlanFor, Folded;
    PlansStay(r, s, call);
  }

  lemma PlansStay(r: Ring, s: Ring, call: Call)
    requires forall a :: a in r.invites ==> a in s.invites
    ensures forall reg, plan :: PlanOf(r, call, reg, plan) ==> PlanOf(s, call, reg, plan)
  {
    hide InviteFor, PlanFor;
  }

  /** The steps of the answer. */
  lemma AnswerKeeps(r: Ring, call: Call, step: Step)
    requires Inv(r, call) && Allowed(r, step) && (step.PickUp? || step.TakePlan? || step.StoreOk?)
    ensures Inv(Do(r, call, step), call)
  {
    hide InviteFor, PlanFor, CancelMessage, Cancels, Rung, InviteCount, Folded, IpText;
    var s := Do(r, call, step);
    CancelsStay(r, s);
    TeardownsStay(r, s);
    PlansStay(r, s, call);
  }

  lemma PlanKeeps(r: Ring, call: Call)
    requires Inv(r, call)
    ensures Inv(RecordPlan(r, call), call)
  {
    hide InviteFor, PlanFor, CancelMessage, Cancels, Rung, InviteCount, Folded;
    var s := RecordPlan(r, call);
    CancelsStay(r, s);
    TeardownsStay(r, s);
    PlansStay(r, s, call);
    if r.pass.Claimed? && r.pass.reg.addr.Some? {
      assert PlanOf(s, call, r.pass.reg, s.plan.value);
    }
  }

  lemma WriteKeeps(r: Ring, call: Call, up: bool)
    requires Inv(r, call)
    ensures Inv(SendInvite(r, call, up), call)
  {
    hide InviteFor, CancelMessage, PlanFor, Cancels;
    var s := SendInvite(r, call, up);
    if s.wire != r.wire {
      assert s.wire[..|s.wire| - 1] == r.wire;
    }
    CancelsStay(r, s);
    PlanStays(r, s, call);
    TeardownsStay(r, s);
  }

  lemma WireGrows(before: seq<Datagram>, after: seq<Datagram>)
    requires before <= after
    ensures forall t, a :: Cancelled(before, t, a) ==> Cancelled(after, t, a)
  {
    hide Cancels;
    forall t, a | Cancelled(before, t, a)
      ensures Cancelled(after, t, a)
    {
      var i :| 0 <= i < |before| && before[i].CancelTo? && before[i].teardown == t && Cancels(before[i], a);
      assert after[i] == before[i];
    }
  }

  lemma DecideKeeps(r: Ring, call: Call)
    requires Inv(r, call)
    ensures Inv(DecideTeardown(r), call)
  {
    hide InviteFor, PlanFor, CancelMessage, Cancels, Rung, InviteCount;
    var s := DecideTeardown(r);
    CancelsStay(r, s);
    PlanStays(r, s, call);
    forall t | 0 <= t < |s.teardowns|
      ensures TeardownOk(s, t)
    {
      if t < |r.teardowns| {
        assert TeardownOk(r, t);
        TeardownStays(r, s, t);
      }
    }
    if r.state.Init? && r.plan.Some? {
      var reg: Registration :| PlanOf(r, call, reg, r.plan.value);
      assert Attempt(reg.addr, InviteFor(call, reg)) in r.invites;
    }
  }

  lemma SnapshotKeeps(r: Ring, call: Call, t: nat)
    requires Inv(r, call) && t < |r.teardowns|
    ensures Inv(SnapshotInvites(r, t), call)
  {
    hide CancelMessage, Rung, InviteFor, PlanFor, Cancels, InviteCount;
    var s := SnapshotInvites(r, t);
    CancelsStay(r, s);
    PlanStays(r, s, call);
    forall k | 0 <= k < |s.teardowns|
      ensures TeardownOk(s, k)
    {
      assert TeardownOk(r, k);
      if s.teardowns[k] == r.teardowns[k] {
        TeardownStays(r, s, k);
      }
    }
  }

  /** Adding the CANCEL of a claimed attempt to the wire. */
  lemma CancelOnWireKeeps(r: Ring, call: Call, d: Datagram, a: Attempt, teardowns: seq<Teardown>)
    requires RecordOk(call, r.invites) && PassOk(r, call) && WireOk(r) && Cancels(d, a)
    ensures var s := r.(wire := r.wire + [d], teardowns := teardowns);
            PassOk(s, call) && WireOk(s) && Cancelled(s.wire, d.teardown, a)
  {
    hide Cancels, InviteFor, Rung, InviteCount, RecordOk;
    var s := r.(wire := r.wire + [d], teardowns := teardowns);
    assert s.wire[|r.wire|] == d;
    IsCancel(d, a);
    CountSkipsCancel(r.wire, d);
  }

  lemma IsCancel(d: Datagram, a: Attempt)
    requires Cancels(d, a)
    ensures d.CancelTo?
  {
  }

  lemma CancelFromSnapshotKeeps(r: Ring, s: Ring, d: Datagram, a: Attempt)
    requires CancelsOk(r) && SnapshotsKept(r, s) && Cancels(d, a)
    requires d.teardown < |r.teardowns| && r.teardowns[d.teardown].Cancelling? && a in r.teardowns[d.teardown].all
    requires s.wire == r.wire + [d] || s.wire == r.wire
    ensures CancelsOk(s)
  {
    hide Cancels;
    CancelsStay(r, s.(wire := r.wire));
    forall i | 0 <= i < |s.wire| && s.wire[i].CancelTo?
      ensures FromSnapshot(s, s.wire[i])
    {
      assert i < |r.wire| ==> FromSnapshot(s.(wire := r.wire), s.wire[i]);
    }
  }

  lemma AfterWriteKeeps(r: Ring, s: Ring, t: nat, up: bool)
    requires t < |r.teardowns| && TeardownOk(r, t)
    requires r.teardowns[t].Cancelling? && r.teardowns[t].todo != []
    requires s.invites == r.invites && r.wire <= s.wire && (up ==> Cancelled(s.wire, t, r.teardowns[t].todo[0]))
    requires t < |s.teardowns| && s.teardowns[t] == AfterWrite(r.teardowns[t], up)
    ensures TeardownOk(s, t)
  {
    hide Cancelled;
    WireGrows(r.wire, s.wire);
    var td := r.teardowns[t];
    assert td.todo == [td.todo[0]] + td.todo[1..];
  }

  lemma CancelCancels(t: nat, a: Attempt, localIP: string)
    requires IpText(localIP) && a.addr.Some? && CancelMessage(a.req, localIP) != ""
    ensures Cancels(CancelTo(t, a.addr.value, CancelMessage(a.req, localIP)), a)
  {
    hide CancelMessage, MethodOf, IpText, ParseHeader, RequestUriOf, ViaBranchOf;
    CancelMirrorsInvite(a.req, localIP);
  }

  /** What the cancel loop does with an attempt this call made: the CANCEL there is
      for it can always be built. */
  lemma CancelNextIs(r: Ring, call: Call, t: nat, localIP: string, up: bool)
    requires Inv(r, call) && call.Valid() && t < |r.teardowns| && IpText(localIP)
    requires r.teardowns[t].Cancelling? && r.teardowns[t].todo != []
    ensures var a, td := r.teardowns[t].todo[0], r.teardowns[t];
            && a in td.all && a in r.invites && a.addr.Some?
            && Cancels(CancelTo(t, a.addr.value, CancelMessage(a.req, localIP)), a)
            && CancelNext(r, t, localIP, up)
               == r.(wire := if up then r.wire + [CancelTo(t, a.addr.value, CancelMessage(a.req, localIP))] else r.wire,
                     teardowns := r.teardowns[t := AfterWrite(td, up)])
  {
    hide CancelMessage, CancelText, Rung, InviteCount, InviteFor, PlanFor, AfterWrite, MethodOf, Cancels;
    var td := r.teardowns[t];
    assert TeardownOk(r, t);
    var a := td.todo[0];
    assert a in td.todo && a in r.invites;
    var k :| 0 <= k < |r.invites| && r.invites[k] == a;
    RungHasCancel(call, a, td.plan, localIP);
    CancelCancels(t, a, localIP);
  }

  lemma CancelKeeps(r: Ring, call: Call, t: nat, localIP: string, up: bool)
    requires Inv(r, call) && call.Valid() && t < |r.teardowns| && IpText(localIP)
    ensures Inv(CancelNext(r, t, localIP, up), call)
  {
    hide CancelMessage, CancelText, Rung, InviteCount, InviteFor, PlanFor, Cancels;
    var s := CancelNext(r, t, localIP, up);
    var td := r.teardowns[t];
    assert TeardownOk(r, t);
    if td.Cancelling? && td.todo != [] {
      CancelNextIs(r, call, t, localIP, up);
      var a := td.todo[0];
      var d := CancelTo(t, a.addr.value, CancelMessage(a.req, localIP));
      CancelOnWireKeeps(r, call, d, a, s.teardowns);
      CancelFromSnapshotKeeps(r, s, d, a);
      PlanStays(r, s, call);
      AfterWriteKeeps(r, s, t, up);
      forall k | 0 <= k < |s.teardowns|
        ensures TeardownOk(s, k)
      {
        if k != t {
          assert TeardownOk(r, k);
          TeardownStays(r, s, k);
        }
      }
    }
  }

  lemma CountSkipsCancel(wire: seq<Datagram>, d: Datagram)
    requires d.CancelTo?
    ensures InviteCount(wire + [d]) == InviteCount(wire)
  {
    assert (wire + [d])[..|wire|] == wire;
  }

  lemma StepKeeps(r: Ring, call: Call, step: Step)
    requires Inv(r, call) && call.Valid() && Allowed(r, step)
    ensures Inv(Do(r, call, step), call)
  {
    hide CancelMessage, InviteFor, PlanFor, Rung, InviteCount, Cancels;
    match step
    case Claim(reg) => ClaimKeeps(r, call, reg);
    case StorePlan => PlanKeeps(r, call);
    case Write(up) => WriteKeeps(r, call, up);
    case Move(state) =>
      var s := Do(r, call, step);
      CancelsStay(r, s);
      PlanStays(r, s, call);
      TeardownsStay(r, s);
    case PickUp => AnswerKeeps(r, call, step);
    case TakePlan => AnswerKeeps(r, call, step);
    case StoreOk(_, _) => AnswerKeeps(r, call, step);
    case BeginTeardown => DecideKeeps(r, call);
    case Snapshot(t) => SnapshotKeeps(r, call, t);
    case WriteCancel(t, localIP, up) => CancelKeeps(r, call, t, localIP, up);
  }

  lemma {:induction false} RunKeeps(call: Call, run: seq<Ring>, steps: seq<Step>)
    requires call.Valid() && IsRun(call, run, steps)
    ensures Inv(run[|steps|], call)
  {
    if steps == [] {
      InitHolds(call);
    } else {
      var n := |steps| - 1;
      RunKeeps(call, run[..n + 1], steps[..n]);
      StepKeeps(run[n], call, steps[n]);
    }
  }

  // ---------------------------------------------------------------- what the phones see

  lemma RungReads(call: Call, a: Attempt)
    requires call.Valid() && Rung(call, a)
    ensures ViaBranchOf(a.req) == CutBranch(call.Branch() + ";rport")
    ensures ParseHeader(a.req, "Call-ID") == call.ID() && ParseHeader(a.req, "CSeq") == "1 INVITE" && MethodOf(a.req) == "INVITE"
  {
    hide ParseHeader, BranchOfVia, CutBranch, RenderInvite, CallerFrom, CallerHeaders, OfferSdp, TrimSpace, MethodOf, CSeqMethod;
    var reg: Registration :| reg.Valid() && reg.addr.Some? && a == Attempt(reg.addr, InviteFor(call, reg));
    CallText(call);
    CallerFromIsLine(call.peer, reg.local);
    InviteReads(reg.user, reg.local, call.Branch(), CallerFrom(call.peer, reg.local), call.ShortID(), call.ID(),
                CallerHeaders(call.peer, reg.local), OfferSdp(reg.local, call.mediaPort));
  }

  /** Over any run: at most one INVITE per address and at most eight in all,
      every one of them the same transaction to read. */
  lemma InvitesAreOneTransaction(call: Call, run: seq<Ring>, steps: seq<Step>, n: nat)
    requires call.Valid() && IsRun(call, run, steps) && n < |run|
    ensures var wire := run[n].wire;
            && InviteCount(wire) <= 8
            && (forall i, j :: 0 <= i < j < |wire| && wire[i].InviteTo? && wire[j].InviteTo? ==> wire[i].addr != wire[j].addr)
            && (forall i :: 0 <= i < |wire| && wire[i].InviteTo? ==>
                  && MethodOf(wire[i].text) == "INVITE"
                  && ViaBranchOf(wire[i].text) == CutBranch("z9hG4bK" + call.modemID[..if |call.modemID| > 8 then 8 else |call.modemID|] + ";rport")
                  && ParseHeader(wire[i].text, "Call-ID") == "in-" + call.modemID && ParseHeader(wire[i].text, "CSeq") == "1 INVITE")
  {
    hide ParseHeader, BranchOfVia, CutBranch, Rung, InviteCount, ViaBranchOf, MethodOf;
    RunKeeps(call, run[..n + 1], steps[..n]);
    var r := run[n];
    assert Inv(r, call);
    assert call.modemID[..|call.modemID|] == call.modemID;
    forall i | 0 <= i < |r.wire| && r.wire[i].InviteTo?
      ensures ViaBranchOf(r.wire[i].text) == CutBranch(call.Branch() + ";rport")
      ensures ParseHeader(r.wire[i].text, "Call-ID") == call.ID() && ParseHeader(r.wire[i].text, "CSeq") == "1 INVITE"
      ensures MethodOf(r.wire[i].text) == "INVITE"
    {
      var a := Attempt(Some(r.wire[i].addr), r.wire[i].text);
      var k :| 0 <= k < |r.invites| && r.invites[k] == a;
      RungReads(call, a);
    }
  }

  lemma CancelReadsAsInvite(call: Call, d: Datagram, a: Attempt)
    requires call.Valid() && Rung(call, a) && Cancels(d, a)
    ensures MethodOf(d.text) == "CANCEL" && CSeqMethod(ParseHeader(d.text, "CSeq")) == "CANCEL"
    ensures RequestUriOf(d.text) == RequestUriOf(a.req) && ViaBranchOf(d.text) == ViaBranchOf(a.req)
    ensures ParseHeader(d.text, "From") == ParseHeader(a.req, "From") && ParseHeader(d.text, "To") == ParseHeader(a.req, "To")
    ensures ParseHeader(d.text, "Call-ID") == ParseHeader(a.req, "Call-ID") && CSeqNumber(ParseHeader(d.text, "CSeq")) == 1
  {
    hide ParseHeader, Rung, ViaBranchOf, RequestUriOf, CancelMessage, CSeqNumber, MethodOf, CSeqMethod;
    var ip :| IpText(ip) && d.text == CancelMessage(a.req, ip) && d.text != "";
    CancelMirrorsInvite(a.req, ip);
    RungReads(call, a);
    InviteCSeqIsOne();
  }

  /** Over any run: a CANCEL only ever goes to an address in the snapshot of the
      teardown that sent it, and there it names the very INVITE rendered for that
      address. An address a sweep claimed after the snapshot gets none. */
  lemma CancelsNameTheirInvite(call: Call, run: seq<Ring>, steps: seq<Step>, n: nat, i: nat) returns (a: Attempt)
    requires call.Valid() && IsRun(call, run, steps) && n < |run|
    requires i < |run[n].wire| && run[n].wire[i].CancelTo?
    ensures var t := run[n].wire[i].teardown;
            t < |run[n].teardowns| && run[n].teardowns[t].Cancelling? && a in run[n].teardowns[t].all
    ensures a in run[n].invites && a.addr == Some(run[n].wire[i].addr)
    ensures var text := run[n].wire[i].text;
            && MethodOf(text) == "CANCEL" && CSeqMethod(ParseHeader(text, "CSeq")) == "CANCEL"
            && RequestUriOf(text) == RequestUriOf(a.req) && ViaBranchOf(text) == ViaBranchOf(a.req)
            && ParseHeader(text, "From") == ParseHeader(a.req, "From") && ParseHeader(text, "To") == ParseHeader(a.req, "To")
            && ParseHeader(text, "Call-ID") == ParseHeader(a.req, "Call-ID") && CSeqNumber(ParseHeader(text, "CSeq")) == 1
    ensures forall k :: 0 <= k < |run[n].wire| && run[n].wire[k].InviteTo? && run[n].wire[k].addr == run[n].wire[i].addr
              ==> run[n].wire[k].text == a.req
  {
    hide ParseHeader, Rung, InviteCount, ViaBranchOf, RequestUriOf, CancelMessage, CSeqNumber, Do, PassOk, PlanOk, MethodOf, CSeqMethod;
    RunKeeps(call, run[..n + 1], steps[..n]);
    var r := run[n];
    assert Inv(r, call);
    assert FromSnapshot(r, r.wire[i]);
    a :| a in r.teardowns[r.wire[i].teardown].all && Cancels(r.wire[i], a);
    assert TeardownOk(r, r.wire[i].teardown);
    var k :| 0 <= k < |r.invites| && r.invites[k] == a;
    CancelReadsAsInvite(call, r.wire[i], a);
    forall m | 0 <= m < |r.wire| && r.wire[m].InviteTo? && r.wire[m].addr == r.wire[i].addr
      ensures r.wire[m].text == a.req
    {
      SameAddressSameAttempt(call, r.invites, Attempt(Some(r.wire[m].addr), r.wire[m].text), a);
    }
  }

  lemma SameAddressSameAttempt(call: Call, invites: seq<Attempt>, a: Attempt, b: Attempt)
    requires RecordOk(call, invites) && a in invites && b in invites && a.addr == b.addr
    ensures a == b
  {
    hide Rung;
    var i :| 0 <= i < |invites| && invites[i] == a;
    var j :| 0 <= j < |invites| && invites[j] == b;
    assert i == j;
  }

  lemma SnapshotStep(r: Ring, call: Call, step: Step, t: nat)
    requires Allowed(r, step)
    requires t < |Do(r, call, step).teardowns| && Do(r, call, step).teardowns[t].Cancelling?
    ensures var all := Do(r, call, step).teardowns[t].all;
            if t < |r.teardowns| && r.teardowns[t].Cancelling? then all == r.teardowns[t].all
            else step == Snapshot(t) && t < |r.teardowns| && r.teardowns[t].Decided? && (r.invites != [] ==> all == r.invites)
  {
    hide CancelMessage, CancelText, InviteFor, PlanFor, IpText;
  }

  /** A snapshot is what was recorded at the step that took it. */
  lemma {:induction false} SnapshotIsWhatWasRecorded(call: Call, run: seq<Ring>, steps: seq<Step>, n: nat, t: nat) returns (i: nat)
    requires call.Valid() && IsRun(call, run, steps) && n < |run|
    requires t < |run[n].teardowns| && run[n].teardowns[t].Cancelling?
    ensures i < n && steps[i] == Snapshot(t) && run[n].teardowns[t].all == run[i].invites != []
  {
    hide Do, Inv, Allowed;
    var r := run[n - 1];
    assert Allowed(r, steps[n - 1]) && run[n] == Do(r, call, steps[n - 1]);
    SnapshotStep(r, call, steps[n - 1], t);
    if t < |r.teardowns| && r.teardowns[t].Cancelling? {
      i := SnapshotIsWhatWasRecorded(call, run, steps, n - 1, t);
    } else {
      i := n - 1;
      RunReachesInv(call, run, steps, n - 1);
      DecidedHasInvites(r, call, t);
    }
  }

  lemma DecidedHasInvites(r: Ring, call: Call, t: nat)
    requires Inv(r, call) && t < |r.teardowns| && r.teardowns[t].Decided?
    ensures r.invites != []
  {
  }

  /** Teardown t's first CANCEL for the attempt was refused by the socket. */
  ghost predicate FirstWriteRefused(r: Ring, step: Step, t: nat, a: Attempt) {
    && step.WriteCancel? && step.t == t && !step.up
    && t < |r.teardowns| && r.teardowns[t].Cancelling? && r.teardowns[t].todo != []
    && r.teardowns[t].todo[0] == a && !r.teardowns[t].repeat
  }

  /** An attempt is given up only at the step that refuses its first CANCEL. */
  lemma {:induction false} RefusedMeansRefused(call: Call, run: seq<Ring>, steps: seq<Step>, n: nat, t: nat, a: Attempt) returns (i: nat)
    requires call.Valid() && IsRun(call, run, steps) && n < |run|
    requires t < |run[n].teardowns| && run[n].teardowns[t].Cancelling? && a in run[n].teardowns[t].refused
    ensures i < n && FirstWriteRefused(run[i], steps[i], t, a)
  {
    hide Do, Inv, Allowed;
    var r := run[n - 1];
    assert Allowed(r, steps[n - 1]) && run[n] == Do(r, call, steps[n - 1]);
    if t < |r.teardowns| && r.teardowns[t].Cancelling? && a in r.teardowns[t].refused {
      i := RefusedMeansRefused(call, run, steps, n - 1, t, a);
    } else {
      i := n - 1;
      RunReachesInv(call, run, steps, n - 1);
      RefusedStep(r, call, steps[n - 1], t, a);
    }
  }

  lemma RefusedStep(r: Ring, call: Call, step: Step, t: nat, a: Attempt)
    requires call.Valid() && Inv(r, call) && Allowed(r, step)
    requires var s := Do(r, call, step); t < |s.teardowns| && s.teardowns[t].Cancelling? && a in s.teardowns[t].refused
    requires !(t < |r.teardowns| && r.teardowns[t].Cancelling? && a in r.teardowns[t].refused)
    ensures FirstWriteRefused(r, step, t, a)
  {
    hide CancelMessage, CancelText, InviteFor, PlanFor, IpText, Inv;
    if step.WriteCancel? && r.teardowns[step.t].Cancelling? && r.teardowns[step.t].todo != [] {
      CancelNextIs(r, call, step.t, step.localIP, step.up);
    }
  }

  /** A finished teardown has put a CANCEL on the wire for every invitation of its
      snapshot, except those whose first CANCEL the socket refused at a step of this
      teardown; and there is always one to reach. */
  lemma TeardownReachesSnapshot(call: Call, run: seq<Ring>, steps: seq<Step>, n: nat, t: nat)
    requires call.Valid() && IsRun(call, run, steps) && n < |run|
    requires t < |run[n].teardowns| && run[n].teardowns[t].Cancelling? && run[n].teardowns[t].todo == []
    ensures run[n].teardowns[t].all != []
    ensures forall a :: a in run[n].teardowns[t].all ==>
              || Cancelled(run[n].wire, t, a)
              || exists i :: 0 <= i < n && FirstWriteRefused(run[i], steps[i], t, a)
  {
    hide Rung, InviteCount, Do, Cancelled, FirstWriteRefused;
    RunReachesInv(call, run, steps, n);
    assert TeardownOk(run[n], t);
    forall a | a in run[n].teardowns[t].all && !Cancelled(run[n].wire, t, a)
      ensures exists i :: 0 <= i < n && FirstWriteRefused(run[i], steps[i], t, a)
    {
      var i := RefusedMeansRefused(call, run, steps, n, t, a);
    }
  }

  lemma RunReachesInv(call: Call, run: seq<Ring>, steps: seq<Step>, n: nat)
    requires call.Valid() && IsRun(call, run, steps) && n < |run|
    ensures Inv(run[n], call)
  {
    hide Do, Inv;
    RunKeeps(call, run[..n + 1], steps[..n]);
  }

  // ---------------------------------------------------------------- the dialog of the answered call

  /** A pass stores the plan of an invitation it claimed earlier. */
  ghost predicate StoresInvitation(r: Ring, step: Step) {
    step.StorePlan? && r.pass.Claimed?
  }

  /** Since the answered plan was stored, a pass has stored an invitation's over it. */
  ghost predicate Overwritten(run: seq<Ring>, steps: seq<Step>, n: nat)
    requires |run| == |steps| + 1 && n < |run|
  {
    exists k :: 0 <= k < n && run[k].answer.PlanStored? && StoresInvitation(run[k], steps[k])
  }

  /** The plan a call has after its answer: the answered one until a pass overwrites
      it, and from then on always one of an invitation. */
  lemma {:induction false} PlanAfterAnswer(call: Call, run: seq<Ring>, steps: seq<Step>, n: nat)
    requires call.Valid() && IsRun(call, run, steps) && n < |run| && run[n].answer.PlanStored?
    ensures var a := run[n].answer;
            if Overwritten(run, steps, n) then run[n].plan.Some? && exists reg: Registration :: PlanOf(run[n], call, reg, run[n].plan.value)
            else run[n].plan == Folded(a.read, a.ok, a.remote)
  {
    hide Do, Inv, Allowed, Folded, PlanOf, StoresInvitation;
    assert n > 0;
    var r := run[n - 1];
    assert Allowed(r, steps[n - 1]) && run[n] == Do(r, call, steps[n - 1]);
    RunReachesInv(call, run, steps, n - 1);
    PlanAfterStep(r, call, steps[n - 1]);
    if r.answer.PlanStored? {
      PlanAfterAnswer(call, run, steps, n - 1);
      assert Overwritten(run, steps, n) <==> Overwritten(run, steps, n - 1) || StoresInvitation(r, steps[n - 1]);
    } else {
      NotYetOverwritten(call, run, steps, n);
    }
  }

  lemma PlanAfterStep(r: Ring, call: Call, step: Step)
    requires Inv(r, call) && Allowed(r, step)
    ensures var s := Do(r, call, step);
            && (r.answer.PlanStored? ==> s.answer == r.answer)
            && (forall reg, plan :: PlanOf(r, call, reg, plan) ==> PlanOf(s, call, reg, plan))
            && (StoresInvitation(r, step) ==> s.plan.Some? && exists reg: Registration :: PlanOf(s, call, reg, s.plan.value))
            && (r.answer.PlanStored? && !StoresInvitation(r, step) ==> s.plan == r.plan)
            && (s.answer.PlanStored? && !r.answer.PlanStored? ==>
                  s.plan == Folded(s.answer.read, s.answer.ok, s.answer.remote))
  {
    hide InviteFor, PlanFor, CancelText, Folded, IpText;
    var s := Do(r, call, step);
    PlansStay(r, s, call);
    if StoresInvitation(r, step) {
      assert PlanOf(s, call, r.pass.reg, s.plan.value);
    }
  }

  /** The answered plan is stored for good once, so nothing before counts. */
  lemma NotYetOverwritten(call: Call, run: seq<Ring>, steps: seq<Step>, n: nat)
    requires IsRun(call, run, steps) && 0 < n < |run| && !run[n - 1].answer.PlanStored?
    ensures !Overwritten(run, steps, n)
  {
    hide Do, StoresInvitation;
    forall k | 0 <= k < n
      ensures !run[k].answer.PlanStored?
    {
      AnswerIsKept(call, run, steps, k, n - 1);
    }
  }

  lemma {:induction false} AnswerIsKept(call: Call, run: seq<Ring>, steps: seq<Step>, k: nat, n: nat)
    requires IsRun(call, run, steps) && k <= n < |run|
    ensures run[k].answer.PlanStored? ==> run[n].answer == run[k].answer
    decreases n - k
  {
    hide InviteFor, PlanFor, CancelText, Folded, IpText;
    if k == n {
    } else {
      AnswerIsKept(call, run, steps, k, n - 1);
      assert run[n] == Do(run[n - 1], call, steps[n - 1]);
    }
  }

  function ToText(reg: Registration): string {
    "<sip:" + reg.user + "@" + reg.local + ">"
  }

  /** A To with a parameter behind the address, as a dialog's has. */
  predicate Tagged(to: string) {
    to != "" && to[|to| - 1] != '>'
  }

  /** Where the dialog a 200 OK opens is reached: by its Contact. */
  function AnsweredTarget(read: Plan, ok: string, remote: string): string {
    match ExtractSipUser(AnsweredTo(read, ok))
    case None => ""
    case Some(user) => ContactUri(ParseHeader(ok, "Contact"), Some(remote), user)
  }

  /** What the BYE of an answered call owes the 200 OK and the INVITE it answered,
      plan being the one stored when the BYE is built: of invitation stored, answered
      by ok from remote unless overwritten. */
  ghost predicate Agreement(invite: string, seen: Registration, stored: Registration, read: Plan, ok: string, remote: string,
                            overwritten: bool, end: SipDialogs.Teardown) {
    && end.Bye? && MethodOf(end.text) == "BYE"
    && (var target := if overwritten then ContactUri(stored.contact, stored.addr, stored.user) else AnsweredTarget(read, ok, remote);
        NoSpace(target) ==> RequestUriOf(end.text) == target)
    && (ParseHeader(end.text, "From") == ParseHeader(invite, "From") <==> seen.local == stored.local)
    && (ParseHeader(end.text, "To") == AnsweredTo(read, ok) <==> !overwritten || AnsweredTo(read, ok) == ToText(stored))
    && (Tagged(ParseHeader(ok, "To")) ==> (ParseHeader(end.text, "To") == ParseHeader(ok, "To") <==> !overwritten))
    && (overwritten || ParseHeader(ok, "To") == "" ==>
          (ParseHeader(end.text, "To") == ParseHeader(invite, "To") <==> seen.user == stored.user && seen.local == stored.local))
    && ParseHeader(end.text, "Call-ID") == ParseHeader(invite, "Call-ID")
    && CSeqNumber(ParseHeader(end.text, "CSeq")) == CSeqNumber(ParseHeader(invite, "CSeq")) + 1
  }

  /** The BYE built from the plan r holds: seen is the contact of INVITE i on the wire,
      stored the one whose plan the answer read or, if overwritten, a pass stored. */
  ghost predicate ByeAgrees(r: Ring, call: Call, overwritten: bool, i: nat, seen: Registration, stored: Registration,
                            state: CallState, localIP: string, nonce: string)
  {
    && r.plan.Some? && r.answer.PlanStored? && i < |r.wire| && r.wire[i].InviteTo?
    && r.wire[i].text == InviteFor(call, seen) && seen.addr == Some(r.wire[i].addr)
    && PlanOf(r, call, stored, if overwritten then r.plan.value else r.answer.read)
    && r.plan.value.remote == (if overwritten then stored.addr else Some(r.answer.remote))
    && Agreement(r.wire[i].text, seen, stored, r.answer.read, r.answer.ok, r.answer.remote, overwritten,
                 TeardownMessage(Inbound, state, "", r.plan.value, localIP, nonce))
  }

  /** In every run, for the BYE built at any time after an answer, whichever contact
      answered: its To is the answered dialog's exactly when no pass has stored an
      invitation's plan since the answer, or the invitation's own To happens to be it,
      which a To with a tag never is; its From is that of the INVITE the client saw
      exactly when the client is reached from the same address as the contact whose
      plan the answer read or the pass stored. It goes to where the 200 OK came from,
      or to that contact. */
  lemma AnsweredDialogAgrees(call: Call, run: seq<Ring>, steps: seq<Step>, n: nat, i: nat, state: CallState, localIP: string, nonce: string)
    returns (seen: Registration, stored: Registration)
    requires call.Valid() && IsRun(call, run, steps) && n < |run|
    requires run[n].answer.PlanStored? && (run[n].answer.read != NO_PLAN || Overwritten(run, steps, n))
    requires i < |run[n].wire| && run[n].wire[i].InviteTo?
    requires IpText(localIP) && NoSpace(nonce) && state in {Answering, Active, SipDialogs.Ended}
    ensures ByeAgrees(run[n], call, Overwritten(run, steps, n), i, seen, stored, state, localIP, nonce)
  {
    hide Do, InviteFor, PlanFor, IpText, TeardownMessage, Agreement, Folded;
    RunReachesInv(call, run, steps, n);
    PlanAfterAnswer(call, run, steps, n);
    var r, a := run[n], run[n].answer;
    seen := SeenContact(r, call, i);
    if Overwritten(run, steps, n) {
      stored :| PlanOf(r, call, stored, r.plan.value);
      OverwrittenAgrees(call, seen, stored, a.read, a.ok, a.remote, state, localIP, nonce);
    } else {
      stored :| PlanOf(r, call, stored, a.read);
      AnsweredAgrees(call, seen, stored, a.ok, a.remote, state, localIP, nonce);
    }
  }

  lemma SeenContact(r: Ring, call: Call, i: nat) returns (seen: Registration)
    requires Inv(r, call) && i < |r.wire| && r.wire[i].InviteTo?
    ensures seen.Valid() && r.wire[i].text == InviteFor(call, seen) && seen.addr == Some(r.wire[i].addr)
  {
    hide InviteFor, PlanFor, InviteCount, Cancels;
    var a := Attempt(Some(r.wire[i].addr), r.wire[i].text);
    assert a in r.invites;
    var k :| 0 <= k < |r.invites| && r.invites[k] == a;
    assert Rung(call, a);
    seen :| seen.Valid() && seen.addr.Some? && a == Attempt(seen.addr, InviteFor(call, seen));
  }

  /** An answer that finds no plan leaves nothing to say BYE with, until a pass stores
      one. */
  lemma AnswerWithoutPlan(call: Call, run: seq<Ring>, steps: seq<Step>, n: nat, state: CallState, localIP: string, nonce: string)
    requires call.Valid() && IsRun(call, run, steps) && n < |run|
    requires run[n].answer.PlanStored? && run[n].answer.read == NO_PLAN && !Overwritten(run, steps, n)
    ensures run[n].plan.Some? && TeardownMessage(Inbound, state, "", run[n].plan.value, localIP, nonce) == SipDialogs.Nothing
  {
    hide Do, InviteFor, PlanFor, IpText, ParseHeader, ExtractSipUser, ContactUri;
    RunReachesInv(call, run, steps, n);
    PlanAfterAnswer(call, run, steps, n);
  }

  /** The BYE of an answered plan. */
  lemma AnsweredAgrees(call: Call, seen: Registration, stored: Registration, ok: string, remote: string,
                       state: CallState, localIP: string, nonce: string)
    requires call.Valid() && seen.Valid() && stored.Valid() && stored.addr.Some?
    requires IpText(localIP) && '\n' !in remote && NoSpace(nonce) && state in {Answering, Active, SipDialogs.Ended}
    requires Folded(PlanFor(call, stored), ok, remote).Some?
    ensures var plan := Folded(PlanFor(call, stored), ok, remote).value;
            && plan.remote == Some(remote)
            && Agreement(InviteFor(call, seen), seen, stored, PlanFor(call, stored), ok, remote, false,
                         TeardownMessage(Inbound, state, "", plan, localIP, nonce))
  {
    hide ParseHeader, CSeqNumber, RenderInvite, CallerFrom, CallerHeaders, OfferSdp, TeardownMessage, ContactUri, ExtractSipUser, IpText;
    CallText(call);
    var read := PlanFor(call, stored);
    assert read.to == ToText(stored);
    ParsedIsLine(ok, "To");
    AddressIsLine("<sip:", stored.user, stored.local, ">");
    ExtractedUserIsLine(AnsweredTo(read, ok));
    var user := ExtractSipUser(AnsweredTo(read, ok)).value;
    InboundDialogAgrees(seen.user, seen.local, OfferSdp(seen.local, call.mediaPort), stored.user, stored.local, InviteFor(call, stored),
                        call.peer, call.ShortID(), call.ID(), stored.addr.value, ContactUri(stored.contact, stored.addr, stored.user),
                        ok, remote, user, state, localIP, nonce);
    AnsweredToReads(call, stored, ok, remote, user, state, localIP, nonce);
  }

  lemma AnsweredToReads(call: Call, stored: Registration, ok: string, remote: string, user: string,
                        state: CallState, localIP: string, nonce: string)
    requires call.Valid() && stored.Valid() && stored.addr.Some?
    requires IpText(localIP) && '\n' !in remote && NoSpace(nonce) && NoCrlf(user) && state in {Answering, Active, SipDialogs.Ended}
    ensures var end := TeardownMessage(Inbound, state, "", AnsweredPlan(PlanFor(call, stored), ok, remote, user), localIP, nonce);
            && end.Bye? && ParseHeader(end.text, "To") == AnsweredTo(PlanFor(call, stored), ok) && MethodOf(end.text) == "BYE"
            && var uri := ContactUri(ParseHeader(ok, "Contact"), Some(remote), user); NoSpace(uri) ==> RequestUriOf(end.text) == uri
  {
    hide ParseHeader, CSeqNumber, RenderInvite, CallerFrom, CallerHeaders, OfferSdp, TeardownMessage, ContactUri, IpText, MethodOf, RequestUriOf;
    InvitationText(call, stored);
    ParsedIsLine(ok, "To");
    ParsedIsLine(ok, "Contact");
    ContactUriIsLine(ParseHeader(ok, "Contact"), remote, user);
    ContactUriNonEmpty(ParseHeader(ok, "Contact"), remote, user);
    PlanByeReads(AnsweredPlan(PlanFor(call, stored), ok, remote, user), state, localIP, nonce);
  }

  /** The texts of an invitation's plan are lines without blanks at their ends. */
  lemma InvitationText(call: Call, reg: Registration)
    requires call.Valid() && reg.Valid() && reg.addr.Some?
    ensures var plan := PlanFor(call, reg);
            && NoCrlf(plan.reqURI) && NoCrlf(plan.from) && Trimmed(plan.from) && NoCrlf(plan.to) && Trimmed(plan.to)
            && NoCrlf(plan.callID) && Trimmed(plan.callID) && plan.callID != ""
            && plan.from == CallerFrom(call.peer, reg.local) + (";tag=cb" + call.ShortID())
            && plan.to == ToText(reg) && plan.inviteCSeq == 1 && plan.remote == reg.addr && plan.callID == call.ID()
  {
    hide CallerFrom, ContactUri, IpText, TrimSpace, InviteFor;
    CallText(call);
    CallerFromIsLine(call.peer, reg.local);
    SuffixWord(CallerFrom(call.peer, reg.local), ";tag=cb" + call.ShortID());
    AddressIsLine("<sip:", reg.user, reg.local, ">");
    ContactUriIsLine(reg.contact, reg.addr.value, reg.user);
    assert CallerFrom(call.peer, reg.local) + ";tag=cb" + call.ShortID() == CallerFrom(call.peer, reg.local) + (";tag=cb" + call.ShortID());
  }

  lemma InviteText(call: Call, reg: Registration)
    requires call.Valid() && reg.Valid()
    ensures var invite := InviteFor(call, reg);
            && ParseHeader(invite, "From") == CallerFrom(call.peer, reg.local) + (";tag=cb" + call.ShortID())
            && ParseHeader(invite, "To") == ToText(reg)
            && ParseHeader(invite, "Call-ID") == call.ID() && ParseHeader(invite, "CSeq") == "1 INVITE"
  {
    hide ParseHeader, TrimSpace, BranchOfVia, CutBranch, RenderInvite, CallerFrom, CallerHeaders, OfferSdp, IpText;
    CallText(call);
    CallerFromIsLine(call.peer, reg.local);
    SuffixWord(CallerFrom(call.peer, reg.local), ";tag=cb" + call.ShortID());
    assert CallerFrom(call.peer, reg.local) + ";tag=cb" + call.ShortID() == CallerFrom(call.peer, reg.local) + (";tag=cb" + call.ShortID());
    InviteReads(reg.user, reg.local, call.Branch(), CallerFrom(call.peer, reg.local), call.ShortID(), call.ID(),
                CallerHeaders(call.peer, reg.local), OfferSdp(reg.local, call.mediaPort));
  }

  lemma InvitationTarget(call: Call, reg: Registration)
    requires reg.addr.Some?
    ensures PlanFor(call, reg).reqURI == ContactUri(reg.contact, reg.addr, reg.user) != ""
  {
    hide InviteFor, ContactUri, CallerFrom;
    ContactUriNonEmpty(reg.contact, reg.addr.value, reg.user);
  }

  /** The BYE of an invitation's plan that a pass stored over the answered one. */
  lemma OverwrittenAgrees(call: Call, seen: Registration, stored: Registration, read: Plan, ok: string, remote: string,
                          state: CallState, localIP: string, nonce: string)
    requires call.Valid() && seen.Valid() && stored.Valid() && stored.addr.Some?
    requires IpText(localIP) && NoSpace(nonce) && state in {Answering, Active, SipDialogs.Ended}
    ensures PlanFor(call, stored).remote == stored.addr
    ensures Agreement(InviteFor(call, seen), seen, stored, read, ok, remote, true,
                      TeardownMessage(Inbound, state, "", PlanFor(call, stored), localIP, nonce))
  {
    hide ParseHeader, CSeqNumber, CallerFrom, TeardownMessage, InviteFor, PlanFor, IpText, MethodOf, RequestUriOf, ContactUri;
    InvitationTarget(call, stored);
    InvitationText(call, stored);
    InviteText(call, seen);
    CallerFromTells(call.peer, seen.local, stored.local, ";tag=cb" + call.ShortID());
    ToTells(seen.user, seen.local, stored.user, stored.local);
    InviteCSeqIsOne();
    PlanByeReads(PlanFor(call, stored), state, localIP, nonce);
  }

  /** The client's 200 OK of the runs below. */
  const OK_TO: string := "<sip:anna@10.1.0.9>;tag=x"
  const OK: string := Line("SIP/2.0 200 OK", Headers("SIP/2.0/UDP gw", false, "<sip:110@gw>;tag=cb5", OK_TO, "in-5", "1 INVITE", NO_BODY))

  lemma OkReads()
    ensures ParseHeader(OK, "To") == OK_TO && Tagged(OK_TO) && ExtractSipUser(OK_TO) == Some("anna")
  {
    hide ParseHeader, Headers, ExtractSipUser, TrimSpace;
    var first, to := "SIP/2.0 200 OK", OK_TO;
    NoLfNoCrlf(first);
    NoLfNoCrlf("SIP/2.0/UDP gw");
    NoLfNoCrlf("<sip:110@gw>;tag=cb5");
    NoLfNoCrlf("in-5");
    NoLfNoCrlf("1 INVITE");
    UserOfOk(to);
    assert first == "SIP/2.0" + " " + "200 OK";
    VerbStarts("SIP/2.0", "200 OK");
    HeadersParse(first, "SIP/2.0/UDP gw", false, "<sip:110@gw>;tag=cb5", to, "in-5", "1 INVITE", NO_BODY);
  }

  lemma UserOfOk(to: string)
    requires to == "<sip:anna@10.1.0.9>;tag=x"
    ensures NoCrlf(to) && Trimmed(to) && Tagged(to) && ExtractSipUser(to) == Some("anna")
  {
    hide ExtractSipUser;
    LineOfOk(to);
    assert to == "<sip:" + "anna" + "@" + "10.1.0.9>;tag=x";
    SipUserReads("anna", "10.1.0.9>;tag=x");
  }

  lemma LineOfOk(to: string)
    requires to == "<sip:anna@10.1.0.9>;tag=x"
    ensures NoCrlf(to) && Trimmed(to) && Tagged(to)
  {
    NoLfNoCrlf(to);
  }

  /** One registration invited with nothing in between. */
  lemma InviteSteps(r: Ring, call: Call, reg: Registration) returns (claimed: Ring, planned: Ring, sent: Ring)
    requires r.pass == Idle && reg.Valid() && reg.addr.Some? && !Invited(r.invites, reg.addr) && |r.invites| < MAX_INVITE_ATTEMPTS
    ensures claimed == Do(r, call, Claim(reg)) && planned == Do(claimed, call, StorePlan) && sent == Do(planned, call, Write(true))
    ensures claimed == r.(invites := r.invites + [Attempt(reg.addr, InviteFor(call, reg))], pass := Claimed(reg))
    ensures sent == claimed.(pass := Idle, plan := Some(PlanFor(call, reg)), wire := r.wire + [InviteTo(reg.addr.value, InviteFor(call, reg))])
  {
    hide InviteFor, PlanFor, Registration.Valid;
    InviteIsText(call, reg);
    claimed := Do(r, call, Claim(reg));
    planned := Do(claimed, call, StorePlan);
    sent := Do(planned, call, Write(true));
  }

  /** A client picks up. */
  lemma AnswerSteps(r: Ring, call: Call, read: Plan) returns (picked: Ring, taken: Ring, stored: Ring)
    requires r.state.Init? && r.answer.NotAnswered? && r.plan == Some(read)
    ensures picked == Do(r, call, PickUp) && taken == Do(picked, call, TakePlan) && stored == Do(taken, call, StoreOk(OK, "10.1.0.1:5060"))
    ensures Folded(read, OK, "10.1.0.1:5060").Some?
    ensures stored == r.(state := Answering, plan := Folded(read, OK, "10.1.0.1:5060"), answer := PlanStored(read, OK, "10.1.0.1:5060"))
  {
    hide ParseHeader, ExtractSipUser, ContactUri;
    OkReads();
    picked := Do(r, call, PickUp);
    taken := Do(picked, call, TakePlan);
    stored := Do(taken, call, StoreOk(OK, "10.1.0.1:5060"));
  }

  /** Two contacts reached from different addresses; the one invited first answers,
      and the BYE that ends the call has another From than its INVITE. */
  lemma LastInvitedWins(localIP: string, nonce: string) returns (run: seq<Ring>, steps: seq<Step>)
    requires IpText(localIP) && NoSpace(nonce)
    ensures IsRun(CALL, run, steps) && |run| == 10 && |run[9].wire| == 2 && run[9].wire[0].InviteTo? && run[9].plan.Some?
    ensures var end := TeardownMessage(Inbound, Active, "", run[9].plan.value, localIP, nonce);
            end.Bye? && ParseHeader(end.text, "From") != ParseHeader(run[9].wire[0].text, "From")
  {
    hide *;
    run, steps := RunOfTwo();
    OtherFrom(run[9], localIP, nonce);
  }

  /** Both were invited, and the answered plan is made from that of the second. */
  ghost predicate AnsweredAfterTwo(r: Ring) {
    && |r.wire| == 2 && r.wire[0] == InviteTo("10.1.0.1:5060", InviteFor(CALL, FIRST))
    && SECOND.addr.Some? && r.plan.Some? && r.plan == Folded(PlanFor(CALL, SECOND), OK, "10.1.0.1:5060")
  }

  lemma RunOfTwo() returns (run: seq<Ring>, steps: seq<Step>)
    ensures IsRun(CALL, run, steps) && |run| == 10 && AnsweredAfterTwo(run[9])
  {
    hide InviteFor, PlanFor, ParseHeader, IpText, NoCrlf, Registration.Valid, Do, Folded, Invited;
    TwoContacts();
    steps := [Claim(FIRST), StorePlan, Write(true), Claim(SECOND), StorePlan, Write(true), PickUp, TakePlan, StoreOk(OK, "10.1.0.1:5060")];
    NobodyInvited(FIRST.addr);
    var r1, r2, r3 := InviteSteps(NOT_RUNG, CALL, FIRST);
    OnlyInvited(r3.invites, FIRST, SECOND, CALL);
    var r4, r5, r6 := InviteSteps(r3, CALL, SECOND);
    var r7, r8, r9 := AnswerSteps(r6, CALL, PlanFor(CALL, SECOND));
    run := [NOT_RUNG, r1, r2, r3, r4, r5, r6, r7, r8, r9];
  }

  lemma OtherFrom(r: Ring, localIP: string, nonce: string)
    requires IpText(localIP) && NoSpace(nonce) && AnsweredAfterTwo(r)
    ensures |r.wire| == 2 && r.wire[0].InviteTo? && r.plan.Some?
    ensures var end := TeardownMessage(Inbound, Active, "", r.plan.value, localIP, nonce);
            end.Bye? && ParseHeader(end.text, "From") != ParseHeader(r.wire[0].text, "From")
  {
    hide InviteFor, PlanFor, TeardownMessage, ParseHeader, IpText, NoCrlf, CSeqNumber, Registration.Valid, Folded, MethodOf, RequestUriOf,
      AnsweredTarget, ContactUri;
    TwoContacts();
    AnsweredAgrees(CALL, FIRST, SECOND, OK, "10.1.0.1:5060", Active, localIP, nonce);
  }

  /** One client at two ports. While its second invitation is between being claimed
      and having its plan stored, the first is answered; the plan then stored is the
      invitation's, and the BYE that ends the call lacks the client's tag. */
  lemma InvitationOverwritesAnswer(localIP: string, nonce: string) returns (run: seq<Ring>, steps: seq<Step>)
    requires IpText(localIP) && NoSpace(nonce)
    ensures IsRun(CALL, run, steps) && |run| == 9 && run[8].answer.PlanStored? && run[8].answer.ok == OK && run[8].plan.Some?
    ensures FIRST.user == MOVED.user && FIRST.local == MOVED.local
    ensures var end := TeardownMessage(Inbound, Active, "", run[8].plan.value, localIP, nonce);
            end.Bye? && ParseHeader(end.text, "To") != ParseHeader(OK, "To")
  {
    hide *;
    run, steps := OverwritingRun();
    TaglessBye(localIP, nonce);
  }

  lemma OverwritingRun() returns (run: seq<Ring>, steps: seq<Step>)
    ensures FIRST.user == MOVED.user && FIRST.local == MOVED.local && MOVED.addr.Some?
    ensures IsRun(CALL, run, steps) && |run| == 9 && run[8].answer.PlanStored? && run[8].answer.ok == OK
    ensures run[8].plan == Some(PlanFor(CALL, MOVED))
  {
    hide InviteFor, PlanFor, ParseHeader, IpText, NoCrlf, Registration.Valid, Folded, Invited, OK, Do;
    TwoContacts();
    steps := [Claim(FIRST), StorePlan, Write(true), Claim(MOVED), PickUp, TakePlan, StoreOk(OK, "10.1.0.1:5060"), StorePlan];
    NobodyInvited(FIRST.addr);
    var r1, r2, r3 := InviteSteps(NOT_RUNG, CALL, FIRST);
    OnlyInvited(r3.invites, FIRST, MOVED, CALL);
    var r4, r4a, r4b := InviteSteps(r3, CALL, MOVED);
    var r5, r6, r7 := AnswerSteps(r4, CALL, PlanFor(CALL, FIRST));
    var r8 := StoreStep(r7, CALL, MOVED);
    run := [NOT_RUNG, r1, r2, r3, r4, r5, r6, r7, r8];
  }

  lemma TaglessBye(localIP: string, nonce: string)
    requires IpText(localIP) && NoSpace(nonce)
    ensures MOVED.addr.Some?
    ensures var end := TeardownMessage(Inbound, Active, "", PlanFor(CALL, MOVED), localIP, nonce);
            end.Bye? && ParseHeader(end.text, "To") != ParseHeader(OK, "To")
  {
    hide InviteFor, PlanFor, TeardownMessage, ParseHeader, IpText, NoCrlf, CSeqNumber, Registration.Valid, OK, ExtractSipUser;
    TwoContacts();
    OkReads();
    OverwrittenAgrees(CALL, FIRST, MOVED, PlanFor(CALL, FIRST), OK, "10.1.0.1:5060", Active, localIP, nonce);
  }

  lemma StoreStep(r: Ring, call: Call, reg: Registration) returns (s: Ring)
    requires r.pass == Claimed(reg) && reg.addr.Some?
    ensures s == Do(r, call, StorePlan) == r.(plan := Some(PlanFor(call, reg)), pass := Planned(reg))
  {
    hide PlanFor;
    s := Do(r, call, StorePlan);
  }

  lemma NobodyInvited(addr: Option<string>)
    ensures !Invited([], addr)
  {
  }

  lemma OnlyInvited(invites: seq<Attempt>, reg: Registration, other: Registration, call: Call)
    requires invites == [] + [Attempt(reg.addr, InviteFor(call, reg))] && other.addr != reg.addr
    ensures !Invited(invites, other.addr)
  {
    hide InviteFor;
  }

  /** A gateway that reaches a contact from another address by the time it cancels:
      the CANCEL has another Via than its INVITE. */
  lemma MovedGatewayChangesVia()
    ensures var invite := InviteFor(CALL, FIRST);
            && CancelMessage(invite, SECOND.local) != ""
            && ParseHeader(CancelMessage(invite, SECOND.local), "Via") != ParseHeader(invite, "Via")
  {
    hide RenderInvite, CallerFrom, CallerHeaders, OfferSdp, CancelMessage, ParseHeader, IpText, NoCrlf;
    TwoContacts();
    CallText(CALL);
    CancelKeepsViaIff(FIRST.user, FIRST.local, CALL.peer, CALL.ShortID(), CALL.ID(), OfferSdp(FIRST.local, CALL.mediaPort), SECOND.local);
  }

  const CALL: Call := Call("5", "110", 4000)
  const FIRST: Registration := Registration("anna", "", Some("10.1.0.1:5060"), "10.1.0.9")
  const SECOND: Registration := Registration("anna", "", Some("10.2.0.1:5060"), "10.2.0.9")
  const MOVED: Registration := Registration("anna", "", Some("10.1.0.1:6070"), "10.1.0.9")

  lemma TwoContacts()
    ensures CALL.Valid() && FIRST.Valid() && SECOND.Valid() && MOVED.Valid()
    ensures FIRST.local != SECOND.local && FIRST.addr != SECOND.addr && FIRST.addr != MOVED.addr
  {
    NoLfNoCrlf("anna");
    NoLfNoCrlf("110");
    NoLfNoCrlf("");
    assert FIRST.addr.value[9] != MOVED.addr.value[9];
    assert FIRST.local[3] != SECOND.local[3] && FIRST.addr.value[3] != SECOND.addr.value[3];
  }

  lemma InviteIsText(call: Call, reg: Registration)
    ensures InviteFor(call, reg) != ""
  {
  }

  // ---------------------------------------------------------------- the objects that take these steps

  /** The invitation record of one call session. */
  class InviteRecord {
    var invites: seq<Attempt>

    constructor ()
      ensures invites == []
    {
      invites := [];
    }

    /** Reports whether a is a new invitation, and records it if so. */
    method RememberInvite(a: Attempt) returns (isNew: bool)
      modifies this
      ensures isNew == IsNew(old(invites), a)
      ensures invites == Remember(old(invites), a)
    {
      if a.addr.None? || a.req == "" {
        return false;
      }
      for i := 0 to |invites|
        invariant !Invited(invites[..i], a.addr)
        invariant invites == old(invites)
      {
        if invites[i].addr == a.addr {
          return false;
        }
        assert invites[..i + 1] == invites[..i] + [invites[i]];
      }
      assert invites[..|invites|] == invites;
      if |invites| >= MAX_INVITE_ATTEMPTS {
        return false;
      }
      invites := invites + [a];
      return true;
    }
  }

  /** One pass over the registrar with nothing interleaved. */
  function PassOver(r: Ring, call: Call, regs: seq<Registration>, up: seq<bool>): Ring
    requires |up| == |regs|
    decreases |regs|
  {
    if regs == [] then r
    else PassOver(SendInvite(RecordPlan(ClaimAddress(r, call, regs[0]), call), call, up[0]), call, regs[1..], up[1..])
  }

  // ---------------------------------------------------------------- whom a pass reaches

  /** The addresses among these registrations that have not been claimed yet. */
  function NewAddresses(invites: seq<Attempt>, regs: seq<Registration>): set<string> {
    if regs == [] then {}
    else
      (if regs[0].addr.Some? && !Invited(invites, regs[0].addr) then {regs[0].addr.value} else {}) + NewAddresses(invites, regs[1..])
  }

  /** Registration k is the first with its address, the address was not claimed
      before, the limit is not used up by those claimed before it, and the socket
      accepts the write. */
  ghost predicate ReachedAt(invites: seq<Attempt>, regs: seq<Registration>, up: seq<bool>, addr: string, k: nat)
    requires |up| == |regs| && k < |regs|
  {
    && regs[k].addr == Some(addr) && up[k]
    && (forall j :: 0 <= j < k ==> regs[j].addr != Some(addr))
    && !Invited(invites, Some(addr))
    && |invites| + |NewAddresses(invites, regs[..k])| < 8
  }

  ghost predicate Reached(invites: seq<Attempt>, regs: seq<Registration>, up: seq<bool>, addr: string)
    requires |up| == |regs|
  {
    exists k :: 0 <= k < |regs| && ReachedAt(invites, regs, up, addr, k)
  }

  /** What a pass does with one registration. */
  lemma OneContact(r: Ring, call: Call, reg: Registration, up: bool)
    requires r.pass == Idle
    ensures var s := SendInvite(RecordPlan(ClaimAddress(r, call, reg), call), call, up);
            var claims := reg.addr.Some? && !Invited(r.invites, reg.addr) && |r.invites| < MAX_INVITE_ATTEMPTS;
            && s.pass == Idle
            && s.invites == (if claims then r.invites + [Attempt(reg.addr, InviteFor(call, reg))] else r.invites)
            && s.wire == if claims && up then r.wire + [InviteTo(reg.addr.value, InviteFor(call, reg))] else r.wire
  {
    hide InviteFor, PlanFor;
    InviteIsText(call, reg);
  }

  lemma WireWithInvite(wire: seq<Datagram>, addr: string, text: string)
    ensures forall other :: OnWire(wire + [InviteTo(addr, text)], other) <==> OnWire(wire, other) || other == addr
  {
    var after := wire + [InviteTo(addr, text)];
    assert after[|wire|].InviteTo? && after[|wire|].addr == addr;
    forall other | OnWire(wire, other)
      ensures OnWire(after, other)
    {
      var i :| 0 <= i < |wire| && wire[i].InviteTo? && wire[i].addr == other;
      assert after[i] == wire[i];
    }
  }

  lemma InvitedWith(invites: seq<Attempt>, a: Attempt)
    ensures forall addr :: Invited(invites + [a], addr) <==> Invited(invites, addr) || addr == a.addr
  {
    var after := invites + [a];
    assert after[|invites|] == a;
    forall addr | Invited(invites, addr)
      ensures Invited(after, addr)
    {
      var i :| 0 <= i < |invites| && invites[i].addr == addr;
      assert after[i] == invites[i];
    }
  }

  /** Claiming an address takes it, and no other, out of the new ones. */
  lemma {:induction false} ClaimedIsNotNew(invites: seq<Attempt>, regs: seq<Registration>, a: Attempt)
    requires a.addr.Some?
    ensures NewAddresses(invites + [a], regs) == NewAddresses(invites, regs) - {a.addr.value}
  {
    hide Invited;
    InvitedWith(invites, a);
    if regs == [] {
      assert NewAddresses(invites, regs) == {};
    } else {
      ClaimedIsNotNew(invites, regs[1..], a);
    }
  }

  lemma NewAddressesStep(invites: seq<Attempt>, regs: seq<Registration>, k: nat, a: Attempt)
    requires 0 < k <= |regs| && a.addr == regs[0].addr
    ensures regs[0].addr.Some? && !Invited(invites, regs[0].addr) ==>
              |NewAddresses(invites, regs[..k])| == 1 + |NewAddresses(invites + [a], regs[1..][..k - 1])|
    ensures regs[0].addr.None? || Invited(invites, regs[0].addr) ==>
              NewAddresses(invites, regs[..k]) == NewAddresses(invites, regs[1..][..k - 1])
  {
    hide Invited;
    var rest := regs[1..][..k - 1];
    assert regs[..k][1..] == rest && regs[..k][0] == regs[0];
    if regs[0].addr.Some? && !Invited(invites, regs[0].addr) {
      ClaimedIsNotNew(invites, rest, a);
      assert NewAddresses(invites, regs[..k]) == {a.addr.value} + NewAddresses(invites + [a], rest);
    }
  }

  lemma ReachedStep(invites: seq<Attempt>, regs: seq<Registration>, up: seq<bool>, addr: string, a: Attempt)
    requires |up| == |regs| > 0 && a.addr == regs[0].addr
    ensures var claims := regs[0].addr.Some? && !Invited(invites, regs[0].addr) && |invites| < MAX_INVITE_ATTEMPTS;
            Reached(invites, regs, up, addr) <==>
              || (claims && regs[0].addr == Some(addr) && up[0])
              || Reached(if claims then invites + [a] else invites, regs[1..], up[1..], addr)
  {
    hide Invited, NewAddresses;
    var claims := regs[0].addr.Some? && !Invited(invites, regs[0].addr) && |invites| < MAX_INVITE_ATTEMPTS;
    var next := if claims then invites + [a] else invites;
    InvitedWith(invites, a);
    NothingNew(invites, regs[..0]);
    forall k | 0 < k < |regs|
      ensures ReachedAt(invites, regs, up, addr, k) <==> ReachedAt(next, regs[1..], up[1..], addr, k - 1)
    {
      NewAddressesStep(invites, regs, k, a);
      assert forall j :: 0 <= j < k - 1 ==> regs[1..][j] == regs[j + 1];
    }
    if Reached(invites, regs, up, addr) {
      var k :| 0 <= k < |regs| && ReachedAt(invites, regs, up, addr, k);
      assert k > 0 ==> ReachedAt(next, regs[1..], up[1..], addr, k - 1);
    }
    if Reached(next, regs[1..], up[1..], addr) {
      var k :| 0 <= k < |regs[1..]| && ReachedAt(next, regs[1..], up[1..], addr, k);
      assert ReachedAt(invites, regs, up, addr, k + 1);
    }
    if claims && regs[0].addr == Some(addr) && up[0] {
      assert ReachedAt(invites, regs, up, addr, 0);
    }
  }

  lemma NothingNew(invites: seq<Attempt>, regs: seq<Registration>)
    requires regs == []
    ensures NewAddresses(invites, regs) == {}
  {
  }

  /** Who has an INVITE on the wire after a pass, exactly: those who had one, and
      those the pass reaches. An address claimed earlier whose write was refused is
      not among them, whatever the registrar and the socket do now. */
  lemma {:induction false} PassReaches(r: Ring, call: Call, regs: seq<Registration>, up: seq<bool>, addr: string)
    requires r.pass == Idle && |up| == |regs|
    ensures PassOver(r, call, regs, up).pass == Idle
    ensures OnWire(PassOver(r, call, regs, up).wire, addr) <==> OnWire(r.wire, addr) || Reached(r.invites, regs, up, addr)
    decreases |regs|
  {
    hide InviteFor, PlanFor, ClaimAddress, RecordPlan, SendInvite, OnWire, ReachedAt, Invited;
    if regs == [] {
      assert !Reached(r.invites, regs, up, addr);
    } else {
      var reg := regs[0];
      OneContact(r, call, reg, up[0]);
      var next := SendInvite(RecordPlan(ClaimAddress(r, call, reg), call), call, up[0]);
      PassReaches(next, call, regs[1..], up[1..], addr);
      ReachedStep(r.invites, regs, up, addr, Attempt(reg.addr, InviteFor(call, reg)));
      if reg.addr.Some? {
        WireWithInvite(r.wire, reg.addr.value, InviteFor(call, reg));
      }
    }
  }

  /** A claimed address that has no INVITE on the wire and is not about to get one. */
  ghost predicate Lost(r: Ring, addr: string) {
    && Invited(r.invites, Some(addr)) && !OnWire(r.wire, addr)
    && (!r.pass.Idle? ==> r.pass.reg.addr != Some(addr))
  }

  lemma LostStep(r: Ring, call: Call, step: Step, addr: string)
    requires Allowed(r, step) && Lost(r, addr)
    ensures Lost(Do(r, call, step), addr)
  {
    hide InviteFor, PlanFor, CancelText, Invited, OnWire;
    var s := Do(r, call, step);
    if s.invites != r.invites {
      InvitedWith(r.invites, s.invites[|r.invites|]);
    }
    if s.wire != r.wire {
      var d := s.wire[|r.wire|];
      if d.InviteTo? {
        WireWithInvite(r.wire, d.addr, d.text);
      } else {
        WireWithCancel(r.wire, d, addr);
      }
    }
  }

  lemma WireWithCancel(wire: seq<Datagram>, d: Datagram, addr: string)
    requires d.CancelTo?
    ensures OnWire(wire + [d], addr) <==> OnWire(wire, addr)
  {
    var after := wire + [d];
    if OnWire(wire, addr) {
      var i :| 0 <= i < |wire| && wire[i].InviteTo? && wire[i].addr == addr;
      assert after[i] == wire[i];
    }
  }

  /** In every run, an address whose one INVITE the socket refused is never invited
      again, though it is claimed and counts against the limit. */
  lemma RefusedIsNeverRetried(call: Call, run: seq<Ring>, steps: seq<Step>, m: nat, n: nat, addr: string)
    requires IsRun(call, run, steps) && m < n < |run| && steps[m] == Write(false)
    requires run[m].pass.Planned? && run[m].pass.reg.addr == Some(addr) && Invited(run[m].invites, Some(addr)) && !OnWire(run[m].wire, addr)
    ensures Invited(run[n].invites, Some(addr)) && !OnWire(run[n].wire, addr)
  {
    hide Invited, OnWire, Allowed, InviteFor, PlanFor, CancelText;
    var k := m + 1;
    assert Lost(run[k], addr);
    while k < n
      invariant m < k <= n && Lost(run[k], addr)
    {
      hide Do, Lost;
      LostStep(run[k], call, steps[k], addr);
      k := k + 1;
    }
  }

  /** Both copies of the CANCEL for the attempt at the head of teardown 0. */
  function CancelHead(r: Ring, localIP: string, first: bool, second: bool): Ring
    requires |r.teardowns| == 1
  {
    var s := CancelNext(r, 0, localIP, first);
    if s.teardowns[0].Cancelling? && s.teardowns[0].repeat then CancelNext(s, 0, localIP, second) else s
  }

  /** A whole cancel loop with nothing interleaved. */
  function CancelOver(r: Ring, localIPs: seq<string>, first: seq<bool>, second: seq<bool>): Ring
    requires |r.teardowns| == 1 && |first| == |second| == |localIPs|
    decreases |localIPs|
  {
    if localIPs == [] then r
    else CancelOver(CancelHead(r, localIPs[0], first[0], second[0]), localIPs[1..], first[1..], second[1..])
  }

  /** Two CANCELs for each attempt, in the order of the record. */
  function Doubled(todo: seq<Attempt>, localIPs: seq<string>): seq<Datagram>
    requires |localIPs| == |todo| && forall i :: 0 <= i < |todo| ==> todo[i].addr.Some?
    decreases |todo|
  {
    if todo == [] then []
    else
      var d := CancelTo(0, todo[0].addr.value, CancelMessage(todo[0].req, localIPs[0]));
      [d, d] + Doubled(todo[1..], localIPs[1..])
  }

  /** When the socket takes them, the CANCEL of every invitation goes out twice, in the
      order the invitations were recorded. */
  lemma {:induction false} TeardownSendsTwice(call: Call, r: Ring, localIPs: seq<string>, first: seq<bool>, second: seq<bool>)
    requires call.Valid() && |r.teardowns| == 1 && r.teardowns[0].Cancelling? && !r.teardowns[0].repeat
    requires |first| == |second| == |localIPs| == |r.teardowns[0].todo|
    requires forall i :: 0 <= i < |first| ==> first[i] && second[i] && IpText(localIPs[i]) && Rung(call, r.teardowns[0].todo[i])
    ensures forall i :: 0 <= i < |r.teardowns[0].todo| ==> r.teardowns[0].todo[i].addr.Some?
    ensures CancelOver(r, localIPs, first, second)
            == r.(wire := r.wire + Doubled(r.teardowns[0].todo, localIPs), teardowns := [r.teardowns[0].(todo := [])])
    decreases |localIPs|
  {
    hide Rung, CancelMessage, CancelText, IpText, CancelHead;
    var td := r.teardowns[0];
    forall i | 0 <= i < |td.todo|
      ensures td.todo[i].addr.Some?
    {
      RungHasCancel(call, td.todo[i], td.plan, localIPs[i]);
    }
    if localIPs == [] {
      assert r.wire + [] == r.wire && td.todo == [] && r.teardowns == [td];
    } else {
      var next := CancelHead(r, localIPs[0], first[0], second[0]);
      HeadSendsTwice(call, r, localIPs[0]);
      TeardownSendsTwice(call, next, localIPs[1..], first[1..], second[1..]);
      var d := CancelTo(0, td.todo[0].addr.value, CancelMessage(td.todo[0].req, localIPs[0]));
      assert r.wire + [d, d] + Doubled(td.todo[1..], localIPs[1..]) == r.wire + Doubled(td.todo, localIPs);
    }
  }

  lemma HeadSendsTwice(call: Call, r: Ring, localIP: string)
    requires call.Valid() && |r.teardowns| == 1 && r.teardowns[0].Cancelling? && !r.teardowns[0].repeat && r.teardowns[0].todo != []
    requires IpText(localIP) && Rung(call, r.teardowns[0].todo[0])
    ensures r.teardowns[0].todo[0].addr.Some?
    ensures var td := r.teardowns[0];
            var d := CancelTo(0, td.todo[0].addr.value, CancelMessage(td.todo[0].req, localIP));
            CancelHead(r, localIP, true, true) == r.(wire := r.wire + [d, d], teardowns := [td.(todo := td.todo[1..])])
  {
    hide Rung, CancelMessage, CancelText, IpText;
    var td := r.teardowns[0];
    RungHasCancel(call, td.todo[0], td.plan, localIP);
    var d := CancelTo(0, td.todo[0].addr.value, CancelMessage(td.todo[0].req, localIP));
    assert r.wire + [d] + [d] == r.wire + [d, d];
    assert CancelNext(r, 0, localIP, true) == r.(wire := r.wire + [d], teardowns := [td.(repeat := true)]);
  }

  /** A teardown with CANCELs starts exactly for a call that still rings and has been
      offered to a contact. */
  lemma TeardownStartsIff(r: Ring)
    ensures |DecideTeardown(r).teardowns| == |r.teardowns| + 1 <==> r.state.Init? && r.plan.Some?
    ensures r.state.Init? && r.plan.Some? ==> DecideTeardown(r).teardowns[|r.teardowns|] == Decided(r.plan.value)
  {
  }

  /** The gateway's side of one ringing call. */
  class Ringer {
    const call: Call
    const record: InviteRecord
    var plan: Option<Plan>
    var wire: seq<Datagram>

    constructor (call: Call)
      ensures this.call == call && fresh(record) && View() == NOT_RUNG
    {
      this.call := call;
      this.record := new InviteRecord();
      this.plan := None;
      this.wire := [];
    }

    ghost function View(): Ring
      reads this, record
    {
      Ring(Init, record.invites, plan, Idle, wire, [], NotAnswered)
    }

    method InviteContact(reg: Registration, up: bool) returns (sent: bool)
      modifies this, record
      ensures View() == SendInvite(RecordPlan(ClaimAddress(old(View()), call, reg), call), call, up)
      ensures |wire| == |old(wire)| + if sent then 1 else 0
    {
      hide InviteFor, PlanFor;
      sent := false;
      if reg.addr.Some? {
        var invite := InviteFor(call, reg);
        var isNew := record.RememberInvite(Attempt(reg.addr, invite));
        if isNew {
          plan := Some(PlanFor(call, reg));
          if up {
            wire := wire + [InviteTo(reg.addr.value, invite)];
            sent := true;
          }
        }
      }
    }

    /** Folds a client's 200 OK into the stored plan; not done when its To has no
        user to read. */
    method FoldAnswer(ok: string, remote: string) returns (done: bool)
      modifies this`plan
      ensures var read := if old(plan).Some? then old(plan).value else NO_PLAN;
              done == Folded(read, ok, remote).Some? && plan == if done then Folded(read, ok, remote) else old(plan)
    {
      hide ParseHeader, ExtractSipUser, ContactUri;
      var p := if plan.Some? then plan.value else NO_PLAN;
      ghost var read := p;
      p := p.(remote := Some(remote));
      var to := ParseHeader(ok, "To");
      if to != "" {
        p := p.(to := to);
      }
      var user := ExtractSipUser(p.to);
      if user.None? {
        return false;
      }
      var uri := ContactUri(ParseHeader(ok, "Contact"), Some(remote), user.value);
      if uri != "" {
        p := p.(reqURI := uri);
      }
      plan := Some(p);
      return true;
    }

    /** Invites every registration not invited yet; up says which writes the
        socket accepts. */
    method InviteRegistered(regs: seq<Registration>, up: seq<bool>) returns (sent: nat)
      requires |up| == |regs|
      modifies this, record
      ensures View() == PassOver(old(View()), call, regs, up)
      ensures sent == |wire| - |old(wire)|
    {
      sent := 0;
      ghost var start := View();
      for i := 0 to |regs|
        invariant PassOver(View(), call, regs[i..], up[i..]) == PassOver(start, call, regs, up)
        invariant sent == |wire| - |old(wire)|
      {
        assert regs[i..][1..] == regs[i + 1..] && up[i..][1..] == up[i + 1..];
        var one := InviteContact(regs[i], up[i]);
        sent := sent + if one then 1 else 0;
      }
    }

    ghost function TeardownView(td: Teardown): Ring
      reads this, record
    {
      View().(teardowns := [td])
    }

    method CancelAttempt(a: Attempt, p: Plan, localIP: string, first: bool, second: bool, ghost td: Teardown) returns (refused: bool)
      requires td.Cancelling? && td.plan == p && td.todo != [] && td.todo[0] == a && !td.repeat
      modifies this`wire
      ensures TeardownView(td.(todo := td.todo[1..], refused := td.refused + if refused then [a] else []))
              == CancelHead(old(TeardownView(td)), localIP, first, second)
    {
      hide CancelText;
      var text := CancelText(a, p, localIP);
      assert td.refused + [] == td.refused;
      ghost var mid := CancelNext(TeardownView(td), 0, localIP, first);
      assert mid.teardowns == [mid.teardowns[0]];
      ghost var done := CancelHead(TeardownView(td), localIP, first, second);
      assert done.teardowns == [done.teardowns[0]];
      if a.addr.None? || text == "" || !first {
        return true;
      }
      wire := wire + [CancelTo(0, a.addr.value, text)];
      if second {
        wire := wire + [CancelTo(0, a.addr.value, text)];
      }
      return false;
    }

    /** Sends a CANCEL for every recorded invitation, twice where the first
        write is accepted, and reports the attempts that got none. */
    method CancelInvitations(localIPs: seq<string>, first: seq<bool>, second: seq<bool>) returns (all: seq<Attempt>, refused: seq<Attempt>)
      requires plan.Some? && |first| == |second| == |localIPs| == if record.invites == [] then 1 else |record.invites|
      modifies this`wire
      ensures TeardownView(Cancelling(plan.value, all, [], false, refused))
              == CancelOver(old(SnapshotInvites(TeardownView(Decided(plan.value)), 0)), localIPs, first, second)
    {
      hide CancelHead, CancelText;
      all := record.invites;
      if all == [] {
        all := [Attempt(plan.value.remote, plan.value.inviteReq)];
      }
      refused := [];
      ghost var start := TeardownView(Cancelling(plan.value, all, all, false, []));
      ghost var snap := SnapshotInvites(TeardownView(Decided(plan.value)), 0);
      assert snap.teardowns == [snap.teardowns[0]];
      assert snap == start;
      assert all[0..] == all && localIPs[0..] == localIPs && first[0..] == first && second[0..] == second;
      for i := 0 to |all|
        invariant CancelOver(TeardownView(Cancelling(plan.value, all, all[i..], false, refused)), localIPs[i..], first[i..], second[i..])
                  == CancelOver(start, localIPs, first, second)
      {
        ghost var td := Cancelling(plan.value, all, all[i..], false, refused);
        assert all[i..][1..] == all[i + 1..] && localIPs[i..][1..] == localIPs[i + 1..];
        assert first[i..][1..] == first[i + 1..] && second[i..][1..] == second[i + 1..];
        var none := CancelAttempt(all[i], plan.value, localIPs[i], first[i], second[i], td);
        refused := refused + if none then [all[i]] else [];
      }
    }
  }
}
