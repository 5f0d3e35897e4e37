/** The serial port shared by any number of goroutines: command exchanges, SMS
    submissions in two modes and the idle reader, with a one-slot channel as the
    port lock and a mutex under it. */
module AtPortLock {
  import opened Text

  datatype Op =
    | Exchange(command: string)
    | SubmitPdu(length: int, pdu: string)
    | SubmitText(destination: string, body: string)

  const CTRL_Z: string := "\U{1A}"
  const PDU_MODE: string := "AT+CMGF=0\r"
  const TEXT_MODE: string := "AT+CMGF=1\r"
  const CHARSET: string := "AT+CSCS=\"GSM\"\r"

  /** Everything a call writes when nothing goes wrong, in order. */
  function Script(op: Op, dryRun: bool): seq<string> {
    var verb := if dryRun then "AT+CMGW" else "AT+CMGS";
    match op
    case Exchange(command) => [command + "\r"]
    case SubmitPdu(length, pdu) =>
      if length < 1 || TrimSpace(pdu) == "" then []
      else [PDU_MODE, verb + "=" + Itoa(length) + "\r", TrimSpace(pdu) + CTRL_Z]
    case SubmitText(destination, body) =>
      if TrimSpace(destination) == "" || TrimSpace(body) == "" then []
      else [TEXT_MODE, CHARSET, verb + "=\"" + destination + "\"\r", body + CTRL_Z]
  }

  /** One write to the port: the call it belongs to and its place in the script. */
  datatype PortWrite = PortWrite(call: nat, op: Op, part: nat, text: string)

  /** Where a goroutine is. Inside: reading while its last write has no answer yet.
      Handing: the mutex is free again, the unsolicited lines go to the handler, the
      port is still held. */
  datatype PC =
    | Idle
    | Waiting(call: nat, op: Op)
    | Holding(call: nat, op: Op)
    | Inside(call: nat, op: Op, written: nat, reading: bool)
    | Handing(call: nat)
    | Polling

  /** Whom the slot was taken for: a call, or a turn of the idle reader. */
  datatype Holder = ForCall(call: nat) | ForPoll(g: nat)

  datatype Port = Port(tokens: nat, mu: Option<nat>, dryRun: bool, pcs: map<nat, PC>, calls: nat,
                       taken: seq<Holder>, returned: seq<Holder>, wire: seq<PortWrite>) {
    function Pc(g: nat): PC {
      if g in pcs then pcs[g] else Idle
    }

    function Go(g: nat, pc: PC): Port {
      this.(pcs := pcs[g := pc])
    }
  }

  const NEW_CLIENT: Port := Port(0, None, false, map[], 0, [], [], [])

  datatype Step =
    | Call(op: Op)
    | GiveUp                    // the caller's context ends while it waits
    | Take
    | Lock
    | Put
    | PutFails(kept: string)    // the write errs after a prefix went out
    | Hear                      // the answer is in, or a read error, or the context ended
    | Leave
    | Return
    | Poll
    | PollDone
    | SetDryRun(on: bool)

  predicate HoldsPort(pc: PC) {
    pc.Holding? || pc.Inside? || pc.Handing? || pc.Polling?
  }

  predicate Enabled(s: Port, g: nat, step: Step) {
    var pc := s.Pc(g);
    match step
    case Call(_) => pc.Idle?
    case GiveUp => pc.Waiting?
    case Take => pc.Waiting? && s.tokens == 0
    case Lock => pc.Holding? && s.mu.None?
    case Put => pc.Inside? && !pc.reading && pc.written < |Script(pc.op, s.dryRun)|
    case PutFails(kept) =>
      pc.Inside? && !pc.reading && pc.written < |Script(pc.op, s.dryRun)| && kept <= Script(pc.op, s.dryRun)[pc.written]
    case Hear => pc.Inside? && pc.reading
    case Leave => pc.Inside? && !pc.reading
    case Return => pc.Handing? && s.tokens > 0
    case Poll => pc.Idle? && s.tokens == 0
    case PollDone => pc.Polling? && s.tokens > 0
    case SetDryRun(_) => s.mu.None?
  }

  function Do(s: Port, g: nat, step: Step): Port
    requires Enabled(s, g, step)
  {
    var pc := s.Pc(g);
    match step
    case Call(op) => s.Go(g, Waiting(s.calls, op)).(calls := s.calls + 1)
    case GiveUp => s.Go(g, Idle)
    case Take => s.Go(g, Holding(pc.call, pc.op)).(tokens := s.tokens + 1, taken := s.taken + [ForCall(pc.call)])
    case Lock => s.Go(g, Inside(pc.call, pc.op, 0, false)).(mu := Some(g))
    case Put =>
      s.Go(g, pc.(written := pc.written + 1, reading := true))
      .(wire := s.wire + [PortWrite(pc.call, pc.op, pc.written, Script(pc.op, s.dryRun)[pc.written])])
    case PutFails(kept) =>
      s.Go(g, Handing(pc.call))
      .(mu := None, wire := if kept == "" then s.wire else s.wire + [PortWrite(pc.call, pc.op, pc.written, kept)])
    case Hear => s.Go(g, pc.(reading := false))
    case Leave => s.Go(g, Handing(pc.call)).(mu := None)
    case Return => s.Go(g, Idle).(tokens := s.tokens - 1, returned := s.returned + [ForCall(pc.call)])
    case Poll => s.Go(g, Polling).(tokens := s.tokens + 1, taken := s.taken + [ForPoll(g)])
    case PollDone => s.Go(g, Idle).(tokens := s.tokens - 1, returned := s.returned + [ForPoll(g)])
    case SetDryRun(on) => s.(dryRun := on)
  }

  ghost predicate IsRun(run: seq<Port>, who: seq<nat>, steps: seq<Step>) {
    && |run| == |steps| + 1 == |who| + 1 && run[0] == NEW_CLIENT
    && forall i :: 0 <= i < |steps| ==> Enabled(run[i], who[i], steps[i]) && run[i + 1] == Do(run[i], who[i], steps[i])
  }

  // ---------------------------------------------------------------- invariant

  predicate HasCall(pc: PC) {
    !pc.Idle? && !pc.Polling?
  }

  function HolderOf(g: nat, pc: PC): Holder {
    if HasCall(pc) then ForCall(pc.call) else ForPoll(g)
  }

  /** The channel slot is full exactly while one goroutine holds the port. */
  ghost predicate LockOk(s: Port) {
    && s.tokens <= 1
    && (s.tokens == 0 ==> s.taken == s.returned)
    && (forall g: nat :: HoldsPort(s.Pc(g)) ==> s.taken == s.returned + [HolderOf(g, s.Pc(g))])
    && (forall g: nat :: HoldsPort(s.Pc(g)) ==> s.tokens == 1)
    && (forall g: nat, h: nat :: HoldsPort(s.Pc(g)) && HoldsPort(s.Pc(h)) ==> g == h)
    && (s.tokens == 1 ==> exists g: nat :: HoldsPort(s.Pc(g)))
    && (s.mu.Some? ==> s.Pc(s.mu.value).Inside?)
    && (forall g: nat :: s.Pc(g).Inside? ==> s.mu == Some(g))
  }

  ghost predicate NoCallTwice(taken: seq<Holder>) {
    forall i, j :: 0 <= i < j < |taken| && taken[i].ForCall? ==> taken[i] != taken[j]
  }

  ghost predicate CallsOk(s: Port) {
    && (forall g: nat :: HasCall(s.Pc(g)) ==> s.Pc(g).call < s.calls)
    && (forall g: nat, h: nat :: HasCall(s.Pc(g)) && HasCall(s.Pc(h)) && s.Pc(g).call == s.Pc(h).call ==> g == h)
    && (forall i :: 0 <= i < |s.wire| ==> s.wire[i].call < s.calls)
  }

  ghost predicate TakenOk(s: Port) {
    && (forall i :: 0 <= i < |s.taken| && s.taken[i].ForCall? ==> s.taken[i].call < s.calls)
    && (forall i, g: nat :: 0 <= i < |s.taken| && s.Pc(g).Waiting? ==> s.taken[i] != ForCall(s.Pc(g).call))
    && NoCallTwice(s.taken)
  }

  /** wire ends with the first n writes of the call's script. */
  ghost predicate EndsWith(wire: seq<PortWrite>, call: nat, op: Op, dryRun: bool, n: nat) {
    && n <= |Script(op, dryRun)| && n <= |wire|
    && (forall j :: |wire| - n <= j < |wire| ==>
          wire[j] == PortWrite(call, op, j - (|wire| - n), Script(op, dryRun)[j - (|wire| - n)]))
    && (forall j :: 0 <= j < |wire| - n ==> wire[j].call != call)
  }

  ghost predicate ProgressOk(s: Port) {
    forall g: nat :: match s.Pc(g)
      case Waiting(call, op) => EndsWith(s.wire, call, op, s.dryRun, 0)
      case Holding(call, op) => EndsWith(s.wire, call, op, s.dryRun, 0)
      case Inside(call, op, n, _) => EndsWith(s.wire, call, op, s.dryRun, n)
      case _ => true
  }

  /** Everything a call wrote before its write at position i stands right before
      it, complete and in the script's order. */
  ghost predicate OwnPrefix(wire: seq<PortWrite>, i: nat, dryRun: bool)
    requires i < |wire|
  {
    var w := wire[i];
    && w.part <= i && w.part < |Script(w.op, dryRun)| && w.text <= Script(w.op, dryRun)[w.part]
    && forall j :: i - w.part <= j < i ==>
         wire[j] == PortWrite(w.call, w.op, j - (i - w.part), Script(w.op, dryRun)[j - (i - w.part)])
  }

  ghost predicate Contiguous(wire: seq<PortWrite>) {
    forall i, j, k :: 0 <= i < j < k < |wire| && wire[i].call == wire[k].call ==> wire[j].call == wire[i].call
  }

  ghost predicate WireOk(wire: seq<PortWrite>) {
    && Contiguous(wire)
    && forall i :: 0 <= i < |wire| ==> OwnPrefix(wire, i, true) || OwnPrefix(wire, i, false)
  }

  ghost predicate Inv(s: Port) {
    LockOk(s) && CallsOk(s) && TakenOk(s) && ProgressOk(s) && WireOk(s.wire)
  }

  /** One more write of the call whose writes the wire ends with. */
  lemma WireOkAppend(wire: seq<PortWrite>, call: nat, op: Op, dryRun: bool, n: nat, text: string)
    requires WireOk(wire) && EndsWith(wire, call, op, dryRun, n)
    requires n < |Script(op, dryRun)| && text <= Script(op, dryRun)[n]
    ensures WireOk(wire + [PortWrite(call, op, n, text)])
  {
    hide Script;
    var after := wire + [PortWrite(call, op, n, text)];
    forall i | 0 <= i < |after|
      ensures OwnPrefix(after, i, true) || OwnPrefix(after, i, false)
    {
      if i < |wire| {
        OwnPrefixStays(wire, after, i);
      } else {
        assert OwnPrefix(after, i, dryRun);
      }
    }
    forall i, j, k | 0 <= i < j < k < |after| && after[i].call == after[k].call
      ensures after[j].call == after[i].call
    {
      assert after[i] == wire[i] && after[j] == wire[j];
    }
  }

  lemma OwnPrefixStays(wire: seq<PortWrite>, after: seq<PortWrite>, i: nat)
    requires i < |wire| && wire <= after
    ensures OwnPrefix(wire, i, true) ==> OwnPrefix(after, i, true)
    ensures OwnPrefix(wire, i, false) ==> OwnPrefix(after, i, false)
  {
    hide Script;
  }

  lemma LockStep(s: Port, g: nat, step: Step)
    requires LockOk(s) && Enabled(s, g, step)
    ensures LockOk(Do(s, g, step))
  {
    hide Script;
    var t := Do(s, g, step);
    assert forall h: nat :: h != g ==> t.Pc(h) == s.Pc(h);
    if t.tokens == 1 {
      if !HoldsPort(t.Pc(g)) {
        assert s.tokens == 1 && !HoldsPort(s.Pc(g));
        var h :| HoldsPort(s.Pc(h));
        assert HoldsPort(t.Pc(h));
      }
    }
  }

  lemma CallsStep(s: Port, g: nat, step: Step)
    requires CallsOk(s) && Enabled(s, g, step)
    ensures CallsOk(Do(s, g, step))
  {
    hide Script;
    var t := Do(s, g, step);
    assert forall h: nat :: h != g ==> t.Pc(h) == s.Pc(h);
    assert HasCall(t.Pc(g)) ==> t.Pc(g).call == if step.Call? then s.calls else s.Pc(g).call;
    forall i | 0 <= i < |t.wire|
      ensures t.wire[i].call < t.calls
    {
      assert i < |s.wire| ==> t.wire[i] == s.wire[i];
    }
  }

  lemma TakenStep(s: Port, g: nat, step: Step)
    requires TakenOk(s) && CallsOk(s) && Enabled(s, g, step)
    ensures TakenOk(Do(s, g, step))
  {
    hide Script;
    var t := Do(s, g, step);
    assert forall h: nat :: h != g ==> t.Pc(h) == s.Pc(h);
    assert s.taken <= t.taken && |t.taken| <= |s.taken| + 1;
    forall i, h: nat | 0 <= i < |t.taken| && t.Pc(h).Waiting?
      ensures t.taken[i] != ForCall(t.Pc(h).call)
    {
      assert i < |s.taken| ==> t.taken[i] == s.taken[i];
    }
  }

  lemma EndsWithMore(wire: seq<PortWrite>, call: nat, op: Op, dryRun: bool, n: nat)
    requires EndsWith(wire, call, op, dryRun, n) && n < |Script(op, dryRun)|
    ensures EndsWith(wire + [PortWrite(call, op, n, Script(op, dryRun)[n])], call, op, dryRun, n + 1)
  {
    hide Script;
  }

  /** A step leaves every other call's progress as it is. */
  lemma Bystander(s: Port, g: nat, step: Step, h: nat)
    requires LockOk(s) && CallsOk(s) && ProgressOk(s) && Enabled(s, g, step)
    requires h != g && HasCall(s.Pc(h)) && !s.Pc(h).Handing?
    ensures var t := Do(s, g, step);
            EndsWith(t.wire, s.Pc(h).call, s.Pc(h).op, t.dryRun, if s.Pc(h).Inside? then s.Pc(h).written else 0)
  {
    hide Script;
    var t := Do(s, g, step);
    assert s.Pc(h).Inside? ==> t.wire == s.wire && t.dryRun == s.dryRun;
    assert t.wire != s.wire ==> t.wire == s.wire + [t.wire[|s.wire|]] && t.wire[|s.wire|].call == s.Pc(g).call;
  }

  lemma ProgressStep(s: Port, g: nat, step: Step)
    requires LockOk(s) && CallsOk(s) && ProgressOk(s) && Enabled(s, g, step)
    ensures ProgressOk(Do(s, g, step))
  {
    hide Script;
    var t := Do(s, g, step);
    assert forall h: nat :: h != g ==> t.Pc(h) == s.Pc(h);
    var pc := s.Pc(g);
    assert !step.Put? && !step.PutFails? ==> t.wire == s.wire;
    if step.Put? {
      EndsWithMore(s.wire, pc.call, pc.op, s.dryRun, pc.written);
    }
    forall h: nat | HasCall(t.Pc(h)) && !t.Pc(h).Handing?
      ensures EndsWith(t.wire, t.Pc(h).call, t.Pc(h).op, t.dryRun, if t.Pc(h).Inside? then t.Pc(h).written else 0)
    {
      if h != g {
        Bystander(s, g, step, h);
      }
    }
  }

  lemma StepKeeps(s: Port, g: nat, step: Step)
    requires Inv(s) && Enabled(s, g, step)
    ensures Inv(Do(s, g, step))
  {
    hide Script, LockOk, CallsOk, TakenOk, WireOk;
    LockStep(s, g, step);
    CallsStep(s, g, step);
    TakenStep(s, g, step);
    ProgressStep(s, g, step);
    var pc := s.Pc(g);
    if step.Put? || step.PutFails? {
      WireOkAppend(s.wire, pc.call, pc.op, s.dryRun, pc.written,
                   if step.Put? then Script(pc.op, s.dryRun)[pc.written] else step.kept);
    }
  }

  lemma {:induction false} RunKeeps(run: seq<Port>, who: seq<nat>, steps: seq<Step>)
    requires IsRun(run, who, steps)
    ensures Inv(run[|steps|])
  {
    if steps == [] {
    } else {
      var n := |steps| - 1;
      RunKeeps(run[..n + 1], who[..n], steps[..n]);
      StepKeeps(run[n], who[n], steps[n]);
    }
  }

  // ---------------------------------------------------------------- what every run keeps

  /** In every run the port never has two holders; everything taken was given back,
      once and by the one it was taken for, before it was taken again; and no call
      takes it twice. */
  lemma OneHolder(run: seq<Port>, who: seq<nat>, steps: seq<Step>, n: nat)
    requires IsRun(run, who, steps) && n < |run|
    ensures forall g: nat, h: nat :: HoldsPort(run[n].Pc(g)) && HoldsPort(run[n].Pc(h)) ==> g == h
    ensures forall g: nat :: HoldsPort(run[n].Pc(g)) ==> run[n].taken == run[n].returned + [HolderOf(g, run[n].Pc(g))]
    ensures (forall g: nat :: !HoldsPort(run[n].Pc(g))) ==> run[n].taken == run[n].returned
    ensures NoCallTwice(run[n].taken)
  {
    hide Do, Enabled, ProgressOk, WireOk, IsRun;
    RunStaysOk(run, who, steps, n);
  }

  /** The command that submits a message, whatever its verb. */
  predicate IsSubmission(w: PortWrite) {
    (w.op.SubmitPdu? && w.part == 1) || (w.op.SubmitText? && w.part == 2)
  }

  function ModeLine(op: Op): string {
    if op.SubmitPdu? then PDU_MODE else TEXT_MODE
  }

  predicate SetsMode(w: PortWrite) {
    "AT+CMGF=" <= w.text
  }

  /** Every call's writes are contiguous, and the last mode command before a
      submission is the one that very call wrote, in the mode the submission is
      made in (sections 3.2.3, 3.5.1 and 4.3 of 3GPP TS 27.005). */
  lemma SubmissionsKeepTheirMode(run: seq<Port>, who: seq<nat>, steps: seq<Step>, n: nat, i: nat) returns (m: nat)
    requires IsRun(run, who, steps) && n < |run|
    requires i < |run[n].wire| && IsSubmission(run[n].wire[i])
    ensures Contiguous(run[n].wire)
    ensures var wire := run[n].wire;
            && m < i && wire[m].call == wire[i].call && wire[m].text == (if wire[i].op.SubmitPdu? then "AT+CMGF=0\r" else "AT+CMGF=1\r")
            && forall j :: m < j < i ==> wire[j].call == wire[i].call && !("AT+CMGF=" <= wire[j].text)
  {
    hide Script, OwnPrefix, LockOk, CallsOk, ProgressOk, Contiguous, IsRun;
    RunStaysOk(run, who, steps, n);
    var dryRun := OwnPrefix(run[n].wire, i, true);
    m := ModeBefore(run[n].wire, i, dryRun);
  }

  lemma ModeBefore(wire: seq<PortWrite>, i: nat, dryRun: bool) returns (m: nat)
    requires i < |wire| && IsSubmission(wire[i]) && OwnPrefix(wire, i, dryRun)
    ensures && m < i && wire[m].call == wire[i].call && wire[m].text == ModeLine(wire[i].op)
            && forall j :: m < j < i ==> wire[j].call == wire[i].call && !SetsMode(wire[j])
  {
    hide SetsMode, Script, ModeLine;
    var w := wire[i];
    m := i - w.part;
    ScriptHead(w.op, dryRun);
    assert wire[m] == PortWrite(w.call, w.op, 0, ModeLine(w.op));
    if w.op.SubmitText? {
      assert wire[m + 1] == PortWrite(w.call, w.op, 1, CHARSET);
      CharsetIsNoMode(wire[m + 1]);
    }
  }

  /** What a submission's script starts with. */
  lemma ScriptHead(op: Op, dryRun: bool)
    requires !op.Exchange? && |Script(op, dryRun)| > 0
    ensures Script(op, dryRun)[0] == ModeLine(op)
    ensures op.SubmitText? ==> |Script(op, dryRun)| > 1 && Script(op, dryRun)[1] == CHARSET
  {
  }

  lemma RunStaysOk(run: seq<Port>, who: seq<nat>, steps: seq<Step>, n: nat)
    requires IsRun(run, who, steps) && n < |run|
    ensures Inv(run[n])
  {
    hide Do, Enabled;
    RunKeeps(run[..n + 1], who[..n], steps[..n]);
  }

  lemma CharsetIsNoMode(w: PortWrite)
    requires w.text == CHARSET
    ensures !SetsMode(w)
  {
    assert CHARSET[4] == 'S' && "AT+CMGF="[4] == 'M';
  }

  /** The payload that Ctrl-Z sends off is written right after the submission
      command of its own call, both complete in the same verb. */
  lemma PayloadFollowsItsCommand(run: seq<Port>, who: seq<nat>, steps: seq<Step>, n: nat, i: nat)
    requires IsRun(run, who, steps) && n < |run|
    requires 0 < i < |run[n].wire| && !run[n].wire[i].op.Exchange?
    requires run[n].wire[i].part == if run[n].wire[i].op.SubmitPdu? then 2 else 3
    ensures var wire := run[n].wire;
            && IsSubmission(wire[i - 1]) && wire[i - 1].call == wire[i].call && wire[i - 1].op == wire[i].op
            && exists dryRun :: wire[i].part < |Script(wire[i].op, dryRun)| && wire[i - 1].text == Script(wire[i].op, dryRun)[wire[i].part - 1]
                                && wire[i].text <= Script(wire[i].op, dryRun)[wire[i].part]
  {
    RunStaysOk(run, who, steps, n);
    var wire := run[n].wire;
    var w := wire[i];
    var dryRun := OwnPrefix(wire, i, true);
    assert OwnPrefix(wire, i, dryRun);
  }

  /** What a call writes when nothing goes wrong, text by text: a command is written
      alone; a submission writes the mode, in text mode the alphabet, the command with its
      number or destination, and the message with the Ctrl-Z that sends it off. A dry run
      stores it instead, and what cannot be submitted writes nothing. */
  lemma SubmissionTexts(command: string, length: int, pdu: string, destination: string, body: string, dryRun: bool)
    ensures Script(Exchange(command), dryRun) == [command + "\r"]
    ensures length < 1 || TrimSpace(pdu) == "" ==> Script(SubmitPdu(length, pdu), dryRun) == []
    ensures TrimSpace(destination) == "" || TrimSpace(body) == "" ==> Script(SubmitText(destination, body), dryRun) == []
    ensures length >= 1 && TrimSpace(pdu) != "" ==>
              Script(SubmitPdu(length, pdu), dryRun)
              == ["AT+CMGF=0\r", (if dryRun then "AT+CMGW=" else "AT+CMGS=") + Itoa(length) + "\r", TrimSpace(pdu) + "\U{1A}"]
    ensures TrimSpace(destination) != "" && TrimSpace(body) != "" ==>
              Script(SubmitText(destination, body), dryRun)
              == ["AT+CMGF=1\r", "AT+CSCS=\"GSM\"\r", (if dryRun then "AT+CMGW=\"" else "AT+CMGS=\"") + destination + "\"\r",
                  body + "\U{1A}"]
  {
    hide TrimSpace, Itoa;
    assert "AT+CMGS" + "=" == "AT+CMGS=" && "AT+CMGW" + "=" == "AT+CMGW=";
    assert "AT+CMGS" + "=\"" == "AT+CMGS=\"" && "AT+CMGW" + "=\"" == "AT+CMGW=\"";
  }

  /** The verb of a complete submission command. */
  lemma VerbOf(op: Op, dryRun: bool, part: nat)
    requires part < |Script(op, dryRun)| && IsSubmission(PortWrite(0, op, part, ""))
    ensures (if dryRun then "AT+CMGW=" else "AT+CMGS=") <= Script(op, dryRun)[part]
    ensures dryRun ==> !("AT+CMGS=" <= Script(op, dryRun)[part])
  {
    hide TrimSpace, Itoa;
    assert "AT+CMGS="[6] != "AT+CMGW="[6];
  }

  lemma DryWriteIsStored(w: PortWrite, dryRun: bool)
    requires w.part < |Script(w.op, dryRun)| && w.text <= Script(w.op, dryRun)[w.part]
    requires IsSubmission(w)
    ensures dryRun ==> !("AT+CMGS=" <= w.text)
  {
    hide Script;
    VerbOf(w.op, dryRun, w.part);
  }

  lemma WireStep(s: Port, g: nat, step: Step)
    requires Enabled(s, g, step)
    ensures s.wire <= Do(s, g, step).wire && |Do(s, g, step).wire| <= |s.wire| + 1
    ensures |Do(s, g, step).wire| > |s.wire| ==>
              var w := Do(s, g, step).wire[|s.wire|];
              w.part < |Script(w.op, s.dryRun)| && w.text <= Script(w.op, s.dryRun)[w.part]
  {
    hide Script;
  }

  /** In every run a message is only ever sent off for delivery while dry runs are off:
      a write of a submission that reads AT+CMGS was made in such a state. */
  lemma {:induction false} DryRunNeverSends(run: seq<Port>, who: seq<nat>, steps: seq<Step>, n: nat, i: nat) returns (k: nat)
    requires IsRun(run, who, steps) && n < |run|
    requires i < |run[n].wire| && IsSubmission(run[n].wire[i]) && "AT+CMGS=" <= run[n].wire[i].text
    ensures k < n && !run[k].dryRun && |run[k].wire| == i
  {
    hide Do, Enabled, Script;
    assert run[0].wire == [];
    assert n > 0;
    var m := n - 1;
    WireStep(run[m], who[m], steps[m]);
    if i < |run[m].wire| {
      k := DryRunNeverSends(run, who, steps, m, i);
    } else {
      k := m;
      DryWriteIsStored(run[n].wire[i], run[m].dryRun);
    }
  }

  lemma DryRunStep(s: Port, g: nat, step: Step)
    requires Enabled(s, g, step)
    ensures Do(s, g, step).dryRun == if step.SetDryRun? then step.on else s.dryRun
  {
    hide Script;
  }

  /** Whether runs are dry is what was last set; it starts as off. */
  lemma {:induction false} DryRunIsTheLatest(run: seq<Port>, who: seq<nat>, steps: seq<Step>, m: nat, n: nat)
    requires IsRun(run, who, steps) && m <= n < |run| && forall k :: m <= k < n ==> !steps[k].SetDryRun?
    ensures run[n].dryRun == if m > 0 && steps[m - 1].SetDryRun? then steps[m - 1].on else run[m].dryRun
    ensures !run[0].dryRun
    decreases n - m
  {
    hide Script, Enabled, Do;
    if m < n {
      DryRunIsTheLatest(run, who, steps, m, n - 1);
      DryRunStep(run[n - 1], who[n - 1], steps[n - 1]);
    } else if m > 0 {
      DryRunStep(run[m - 1], who[m - 1], steps[m - 1]);
    }
  }

  /** In every run: while nobody holds the port, whoever waits can take it and the idle
      reader can have its turn, and nobody can while somebody does; a dry run is switched
      exactly while no call is inside. */
  lemma FreeForAll(run: seq<Port>, who: seq<nat>, steps: seq<Step>, n: nat, g: nat, on: bool)
    requires IsRun(run, who, steps) && n < |run|
    ensures var free := forall h: nat :: !HoldsPort(run[n].Pc(h));
            && (Enabled(run[n], g, Take) <==> run[n].Pc(g).Waiting? && free)
            && (Enabled(run[n], g, Poll) <==> run[n].Pc(g).Idle? && free)
            && (Enabled(run[n], g, SetDryRun(on)) <==> forall h: nat :: !run[n].Pc(h).Inside?)
  {
    hide Do, CallsOk, TakenOk, ProgressOk, WireOk, IsRun;
    RunStaysOk(run, who, steps, n);
  }

  /** The step writes to the port for this call. */
  ghost predicate WritesFor(s: Port, g: nat, step: Step, call: nat) {
    (step.Put? || step.PutFails?) && HasCall(s.Pc(g)) && s.Pc(g).call == call
  }

  lemma ReaderStep(s: Port, g: nat, step: Step, h: nat)
    requires Enabled(s, g, step) && s.Pc(h).Inside? && s.Pc(h).reading && !(g == h && step.Hear?)
    ensures Do(s, g, step).Pc(h) == s.Pc(h)
  {
    hide Script;
  }

  /** A goroutine that wrote reads until it has heard. */
  lemma {:induction false} ReadsUntilHeard(run: seq<Port>, who: seq<nat>, steps: seq<Step>, m: nat, n: nat)
    requires IsRun(run, who, steps) && m < n < |run| && steps[m].Put?
    requires forall k :: m < k < n && who[k] == who[m] ==> !steps[k].Hear?
    ensures var pc := run[n].Pc(who[m]); pc.Inside? && pc.reading && HasCall(run[m].Pc(who[m])) && pc.call == run[m].Pc(who[m]).call
    decreases n - m
  {
    hide Script, Enabled, Do;
    if n == m + 1 {
      PutStep(run[m], who[m], steps[m]);
    } else {
      ReadsUntilHeard(run, who, steps, m, n - 1);
      ReaderStep(run[n - 1], who[n - 1], steps[n - 1], who[m]);
    }
  }

  lemma PutStep(s: Port, g: nat, step: Step)
    requires Enabled(s, g, step) && step.Put?
    ensures var pc := Do(s, g, step).Pc(g); pc.Inside? && pc.reading && HasCall(s.Pc(g)) && pc.call == s.Pc(g).call
  {
    hide Script;
  }

  /** In every run a call writes once and then hears before it writes again: two writes
      of one call come from one goroutine, which has read in between. */
  lemma WritesTakeTurns(run: seq<Port>, who: seq<nat>, steps: seq<Step>, m: nat, n: nat, call: nat)
    requires IsRun(run, who, steps) && m < n < |steps|
    requires WritesFor(run[m], who[m], steps[m], call) && WritesFor(run[n], who[n], steps[n], call)
    ensures steps[m].Put? && exists k :: m < k < n && who[k] == who[m] && steps[k].Hear?
  {
    hide Script, LockOk, TakenOk, ProgressOk, WireOk;
    if steps[m].PutFails? {
      RunStaysOk(run, who, steps, m);
      FailedIsDone(run[m], who[m], steps[m]);
      DoneStaysDone(run, who, steps, m + 1, n, call);
    } else if forall k :: m < k < n && who[k] == who[m] ==> !steps[k].Hear? {
      ReadsUntilHeard(run, who, steps, m, n);
      RunStaysOk(run, who, steps, n);
    }
  }

  /** Nobody takes the port for this call any more, or writes for it. */
  ghost predicate Done(s: Port, call: nat) {
    call < s.calls && forall g: nat :: HasCall(s.Pc(g)) && s.Pc(g).call == call ==> s.Pc(g).Handing?
  }

  lemma FailedIsDone(s: Port, g: nat, step: Step)
    requires Enabled(s, g, step) && (step.PutFails? || step.GiveUp?) && CallsOk(s)
    ensures Done(Do(s, g, step), s.Pc(g).call)
  {
    hide Script;
    assert forall h: nat :: h != g ==> Do(s, g, step).Pc(h) == s.Pc(h);
  }

  lemma DoneStep(s: Port, g: nat, step: Step, call: nat)
    requires Enabled(s, g, step) && Done(s, call)
    ensures Done(Do(s, g, step), call)
    ensures ForCall(call) in Do(s, g, step).taken ==> ForCall(call) in s.taken
    ensures forall w :: w in Do(s, g, step).wire && w.call == call ==> w in s.wire
  {
    hide Script;
    assert forall h: nat :: h != g ==> Do(s, g, step).Pc(h) == s.Pc(h);
  }

  lemma {:induction false} DoneStaysDone(run: seq<Port>, who: seq<nat>, steps: seq<Step>, m: nat, n: nat, call: nat)
    requires IsRun(run, who, steps) && m <= n < |run| && Done(run[m], call)
    ensures Done(run[n], call)
    ensures ForCall(call) in run[n].taken ==> ForCall(call) in run[m].taken
    ensures forall w :: w in run[n].wire && w.call == call ==> w in run[m].wire
    decreases n - m
  {
    hide Script, Done, Do, Enabled;
    if m < n {
      DoneStaysDone(run, who, steps, m, n - 1, call);
      DoneStep(run[n - 1], who[n - 1], steps[n - 1], call);
    }
  }

  /** In every run a call that gave up waiting never gets the port and never writes. */
  lemma GivenUpIsGone(run: seq<Port>, who: seq<nat>, steps: seq<Step>, m: nat, n: nat)
    requires IsRun(run, who, steps) && m < n < |run| && steps[m] == GiveUp
    ensures var pc := run[m].Pc(who[m]);
            pc.Waiting? && ForCall(pc.call) !in run[n].taken && forall i :: 0 <= i < |run[n].wire| ==> run[n].wire[i].call != pc.call
  {
    hide Script, LockOk, CallsOk, Done;
    RunStaysOk(run, who, steps, m);
    var s, g := run[m], who[m];
    var call := s.Pc(g).call;
    assert EndsWith(s.wire, call, s.Pc(g).op, s.dryRun, 0);
    FailedIsDone(s, g, GiveUp);
    DoneStaysDone(run, who, steps, m + 1, n, call);
  }

  /** Steps a goroutine takes without waiting for the modem or for its context. */
  predicate OwnMove(step: Step) {
    step in {Take, Lock, Put, Leave, Return, PollDone}
  }

  /** Goroutine h reads for its answer and all others that are busy want the port. */
  ghost predicate AllWaitFor(s: Port, h: nat) {
    && s.Pc(h).Inside? && s.Pc(h).reading
    && forall g: nat :: g != h ==> s.Pc(g).Idle? || s.Pc(g).Waiting?
  }

  /** In every run, while anybody is busy: no goroutine can move by itself if and
      only if exactly one is inside, reading for an answer the modem owes, and every
      other busy one waits for the port. A modem that stays silent to a call whose
      context never ends is the one way to get stuck. */
  lemma StuckOnlyBehindAReader(run: seq<Port>, who: seq<nat>, steps: seq<Step>, n: nat)
    requires IsRun(run, who, steps) && n < |run| && exists g: nat :: !run[n].Pc(g).Idle?
    ensures (forall g: nat, step :: OwnMove(step) ==> !Enabled(run[n], g, step)) <==> exists h: nat :: AllWaitFor(run[n], h)
  {
    hide Script, CallsOk, ProgressOk, WireOk, IsRun;
    RunStaysOk(run, who, steps, n);
    var s := run[n];
    if forall g: nat, step :: OwnMove(step) ==> !Enabled(s, g, step) {
      var busy: nat :| !s.Pc(busy).Idle?;
      assert !Enabled(s, busy, Take);
      assert s.tokens == 1;
      var h: nat :| HoldsPort(s.Pc(h));
      assert !Enabled(s, h, Lock) && !Enabled(s, h, Leave) && !Enabled(s, h, Return) && !Enabled(s, h, PollDone);
      assert AllWaitFor(s, h);
    }
    if h: nat :| AllWaitFor(s, h) {
      assert s.tokens == 1;
      forall g: nat, step | OwnMove(step)
        ensures !Enabled(s, g, step)
      {
        assert g != h ==> s.Pc(g).Idle? || s.Pc(g).Waiting?;
      }
    }
  }

  /** Such a run: a hangup the modem never answers, and a dial behind it. */
  lemma SilentModemBlocksEveryone() returns (run: seq<Port>, who: seq<nat>, steps: seq<Step>)
    ensures IsRun(run, who, steps) && AllWaitFor(run[|steps|], 0) && run[|steps|].Pc(1).Waiting?
  {
    who, steps := [0, 0, 0, 0, 1], [Call(Exchange("ATH")), Take, Lock, Put, Call(Exchange("ATD1;"))];
    hide Script;
    var s1 := Do(NEW_CLIENT, 0, steps[0]);
    var s2 := Do(s1, 0, Take);
    var s3 := Do(s2, 0, Lock);
    var s4 := Do(s3, 0, Put);
    run := [NEW_CLIENT, s1, s2, s3, s4, Do(s4, 1, steps[4])];
  }
}
