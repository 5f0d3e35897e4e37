/** Sending a message through three layers: the submission at the port, the
    adapter that picks the mode, and the engine that records a status. */
module SmsSubmit {
  import opened Text
  import opened AtLines
  import opened AtPortLock
  import SmsInbox

  // ---------------------------------------------------------------- the port

  /** How the port answers one submission: whether each write of its script goes
      out, and what is read after it; and whether an id can be drawn at the end. */
  datatype Env = Env(dryRun: bool, writes: seq<bool>, answers: seq<seq<Read>>, idOk: bool) {
    predicate Covers(op: Op) {
      |writes| == |answers| == |Script(op, dryRun)|
    }
  }

  class SerialPort {
    var written: seq<string>

    constructor ()
      ensures written == []
    {
      written := [];
    }

    method Write(text: string, goesOut: bool) returns (ok: bool)
      modifies this
      ensures ok == goesOut
      ensures written == if goesOut then old(written) + [text] else old(written)
    {
      if goesOut {
        written := written + [text];
      }
      return goesOut;
    }
  }

  datatype Submission = Confirmed | InDoubt | NotSent

  /** A setup line as the command whose echo its exchange skips. */
  function CommandOf(part: string): string {
    if part == "" then "" else part[..|part| - 1]
  }

  /** What is read after part i: a setup's exchange, the wait for the prompt, or
      the reply to the payload. */
  function PartAnswer(op: Op, env: Env, i: nat): Outcome
    requires env.Covers(op) && i < |env.answers|
  {
    var n := |env.answers|;
    if i == n - 1 then Answer(env.answers[i], None)
    else if i == n - 2 then PromptAnswer(env.answers[i])
    else Answer(env.answers[i], Some(CommandOf(Script(op, env.dryRun)[i])))
  }

  /** Whether that lets the submission go on: a setup has to be accepted, and the
      wait has to end with the prompt or an OK. */
  predicate GoesOn(op: Op, env: Env, i: nat)
    requires env.Covers(op) && i < |env.answers| - 1
  {
    var v := PartAnswer(op, env, i).verdict;
    v.Accepted? || (v.Prompted? && i == |env.answers| - 2)
  }

  /** How many writes of the script go out when those before i have. */
  function Progress(op: Op, env: Env, i: nat): (n: nat)
    requires env.Covers(op) && i <= |env.writes|
    ensures i <= n <= |env.writes|
    decreases |env.writes| - i
  {
    if i == |env.writes| || !env.writes[i] then i
    else if i == |env.writes| - 1 || !GoesOn(op, env, i) then i + 1
    else Progress(op, env, i + 1)
  }

  /** The payload and its Ctrl-Z went out. */
  predicate CtrlZOut(op: Op, env: Env)
    requires env.Covers(op)
  {
    env.writes != [] && Progress(op, env, 0) == |env.writes|
  }

  function Result(op: Op, env: Env): Submission
    requires env.Covers(op)
  {
    if !CtrlZOut(op, env) then NotSent
    else
      match Answer(env.answers[|env.answers| - 1], None).verdict
      case Accepted => Confirmed
      case Refused(_) => NotSent
      case _ => InDoubt
  }

  /** The command exchange under the lock. */
  method ExchangeLocked(port: SerialPort, command: string, goesOut: bool, input: seq<Read>) returns (accepted: bool, urcs: seq<string>)
    modifies port
    ensures port.written == old(port.written) + if goesOut then [command + "\r"] else []
    ensures accepted == (goesOut && Answer(input, Some(command)).verdict.Accepted?)
    ensures urcs == if goesOut then Answer(input, Some(command)).urcs else []
  {
    var ok := port.Write(command + "\r", goesOut);
    if !ok {
      return false, [];
    }
    var reader := new Reader();
    var out := reader.ReadReply(input, Some(command));
    return out.verdict.Accepted?, out.urcs;
  }

  method SubmissionVerdict(port: SerialPort, payload: string, goesOut: bool, input: seq<Read>) returns (result: Submission, urcs: seq<string>)
    modifies port
    ensures port.written == old(port.written) + if goesOut then [payload] else []
    ensures !goesOut ==> result == NotSent
    ensures goesOut ==> result == match Answer(input, None).verdict
                                  case Accepted => Confirmed
                                  case Refused(_) => NotSent
                                  case _ => InDoubt
    ensures urcs == if goesOut then Answer(input, None).urcs else []
  {
    var ok := port.Write(payload, goesOut);
    if !ok {
      return NotSent, [];
    }
    var reader := new Reader();
    var out := reader.ReadReply(input, None);
    result := match out.verdict case Accepted => Confirmed case Refused(_) => NotSent case _ => InDoubt;
    urcs := out.urcs;
  }

  method AwaitPrompt(port: SerialPort, header: string, goesOut: bool, input: seq<Read>) returns (go: bool, urcs: seq<string>)
    modifies port
    ensures port.written == old(port.written) + if goesOut then [header] else []
    ensures go == (goesOut && PromptAnswer(input).verdict in {Prompted, Accepted})
    ensures urcs == if goesOut then PromptAnswer(input).urcs else []
  {
    var ok := port.Write(header, goesOut);
    if !ok {
      return false, [];
    }
    var reader := new Reader();
    var out := reader.ReadPrompt(input);
    return out.verdict in {Prompted, Accepted}, out.urcs;
  }

  /** The unsolicited lines collected by the parts of a script from i on. */
  function Collected(op: Op, env: Env, i: nat): seq<string>
    requires env.Covers(op) && i <= |env.writes|
    decreases |env.writes| - i
  {
    if i == |env.writes| || !env.writes[i] then []
    else if i == |env.writes| - 1 || !GoesOn(op, env, i) then PartAnswer(op, env, i).urcs
    else PartAnswer(op, env, i).urcs + Collected(op, env, i + 1)
  }

  /** One part of a submission, as the methods below go through them. */
  lemma OnePart(op: Op, env: Env, i: nat)
    requires env.Covers(op) && i < |env.writes|
    ensures !env.writes[i] ==> Progress(op, env, i) == i && Collected(op, env, i) == []
    ensures env.writes[i] && (i == |env.writes| - 1 || !GoesOn(op, env, i)) ==>
              Progress(op, env, i) == i + 1 && Collected(op, env, i) == PartAnswer(op, env, i).urcs
    ensures env.writes[i] && i < |env.writes| - 1 && GoesOn(op, env, i) ==>
              && Progress(op, env, i) == Progress(op, env, i + 1)
              && Collected(op, env, i) == PartAnswer(op, env, i).urcs + Collected(op, env, i + 1)
    ensures Script(op, env.dryRun)[..i + 1] == Script(op, env.dryRun)[..i] + [Script(op, env.dryRun)[i]]
  {
    hide Script, PartAnswer, GoesOn;
  }

  /** A finished submission, seen from its last part. */
  lemma LastPart(op: Op, env: Env)
    requires env.Covers(op) && env.writes != []
    requires Progress(op, env, 0) == Progress(op, env, |env.writes| - 1)
    ensures Result(op, env) ==
              if !env.writes[|env.writes| - 1] then NotSent
              else match PartAnswer(op, env, |env.writes| - 1).verdict
                case Accepted => Confirmed
                case Refused(_) => NotSent
                case _ => InDoubt
  {
    hide Answer;
    OnePart(op, env, |env.writes| - 1);
  }

  method SendPduLocked(port: SerialPort, length: int, pdu: string, env: Env) returns (result: Submission, urcs: seq<string>)
    requires env.Covers(SubmitPdu(length, pdu))
    modifies port
    ensures var op := SubmitPdu(length, pdu);
            && port.written == old(port.written) + Script(op, env.dryRun)[..Progress(op, env, 0)]
            && result == Result(op, env) && urcs == Collected(op, env, 0)
  {
    hide Answer, PromptAnswer, TrimSpace, Itoa, Progress, Collected, PartAnswer;
    ghost var op := SubmitPdu(length, pdu);
    urcs := [];
    if length < 1 || TrimSpace(pdu) == "" {
      NoParts(op, env);
      return NotSent, urcs;
    }
    PduParts(length, pdu, env);
    OnePart(op, env, 0);
    var accepted, lines := ExchangeLocked(port, "AT+CMGF=0", env.writes[0], env.answers[0]);
    urcs := urcs + lines;
    if !accepted {
      return NotSent, urcs;
    }
    OnePart(op, env, 1);
    var verb := if env.dryRun then "AT+CMGW" else "AT+CMGS";
    var go;
    go, lines := AwaitPrompt(port, verb + "=" + Itoa(length) + "\r", env.writes[1], env.answers[1]);
    urcs := urcs + lines;
    if !go {
      return NotSent, urcs;
    }
    OnePart(op, env, 2);
    LastPart(op, env);
    result, lines := SubmissionVerdict(port, TrimSpace(pdu) + CTRL_Z, env.writes[2], env.answers[2]);
    urcs := urcs + lines;
  }

  lemma NoParts(op: Op, env: Env)
    requires env.Covers(op) && env.writes == []
    ensures Progress(op, env, 0) == 0 && Collected(op, env, 0) == [] && Result(op, env) == NotSent
  {
  }

  /** The three parts of a PDU submission. */
  lemma PduParts(length: int, pdu: string, env: Env)
    requires length >= 1 && TrimSpace(pdu) != "" && env.Covers(SubmitPdu(length, pdu))
    ensures var op := SubmitPdu(length, pdu);
            var script := Script(op, env.dryRun);
            && |script| == 3 && script[..0] == [] && script[0] == "AT+CMGF=0" + "\r"
            && PartAnswer(op, env, 0) == Answer(env.answers[0], Some("AT+CMGF=0"))
            && PartAnswer(op, env, 1) == PromptAnswer(env.answers[1])
            && PartAnswer(op, env, 2) == Answer(env.answers[2], None)
  {
    hide Answer, PromptAnswer, TrimSpace, Itoa;
    assert PDU_MODE == "AT+CMGF=0" + "\r" && CommandOf(PDU_MODE) == "AT+CMGF=0";
  }

  method SendTextLocked(port: SerialPort, destination: string, body: string, env: Env) returns (result: Submission, urcs: seq<string>)
    requires env.Covers(SubmitText(destination, body))
    modifies port
    ensures var op := SubmitText(destination, body);
            && port.written == old(port.written) + Script(op, env.dryRun)[..Progress(op, env, 0)]
            && result == Result(op, env) && urcs == Collected(op, env, 0)
  {
    hide Answer, PromptAnswer, TrimSpace, Progress, Collected, PartAnswer;
    ghost var op := SubmitText(destination, body);
    urcs := [];
    if TrimSpace(destination) == "" || TrimSpace(body) == "" {
      NoParts(op, env);
      return NotSent, urcs;
    }
    TextParts(destination, body, env);
    var setups := ["AT+CMGF=1", "AT+CSCS=\"GSM\""];
    for i := 0 to |setups|
      invariant port.written == old(port.written) + Script(op, env.dryRun)[..i]
      invariant Progress(op, env, 0) == Progress(op, env, i)
      invariant Collected(op, env, 0) == urcs + Collected(op, env, i)
    {
      OnePart(op, env, i);
      var accepted, lines := ExchangeLocked(port, setups[i], env.writes[i], env.answers[i]);
      urcs := urcs + lines;
      if !accepted {
        return NotSent, urcs;
      }
    }
    OnePart(op, env, 2);
    var verb := if env.dryRun then "AT+CMGW" else "AT+CMGS";
    var go, lines := AwaitPrompt(port, verb + "=\"" + destination + "\"\r", env.writes[2], env.answers[2]);
    urcs := urcs + lines;
    if !go {
      return NotSent, urcs;
    }
    OnePart(op, env, 3);
    LastPart(op, env);
    result, lines := SubmissionVerdict(port, body + CTRL_Z, env.writes[3], env.answers[3]);
    urcs := urcs + lines;
  }

  /** The four parts of a text submission. */
  lemma TextParts(destination: string, body: string, env: Env)
    requires TrimSpace(destination) != "" && TrimSpace(body) != "" && env.Covers(SubmitText(destination, body))
    ensures var op := SubmitText(destination, body);
            var script := Script(op, env.dryRun);
            && |script| == 4 && script[..0] == [] && script[0] == "AT+CMGF=1" + "\r" && script[1] == "AT+CSCS=\"GSM\"" + "\r"
            && PartAnswer(op, env, 0) == Answer(env.answers[0], Some("AT+CMGF=1"))
            && PartAnswer(op, env, 1) == Answer(env.answers[1], Some("AT+CSCS=\"GSM\""))
            && PartAnswer(op, env, 2) == PromptAnswer(env.answers[2])
            && PartAnswer(op, env, 3) == Answer(env.answers[3], None)
  {
    hide Answer, PromptAnswer, TrimSpace;
    assert TEXT_MODE == "AT+CMGF=1" + "\r" && CommandOf(TEXT_MODE) == "AT+CMGF=1";
    assert CHARSET == "AT+CSCS=\"GSM\"" + "\r" && CommandOf(CHARSET) == "AT+CSCS=\"GSM\"";
  }

  /** The payload is out exactly when every write went out and every answer before
      it let the submission go on. */
  lemma {:induction false} CtrlZOutMeans(op: Op, env: Env, i: nat)
    requires env.Covers(op) && i <= |env.writes|
    ensures Progress(op, env, i) == |env.writes| <==>
            (forall k :: i <= k < |env.writes| ==> env.writes[k]) && (forall k :: i <= k < |env.writes| - 1 ==> GoesOn(op, env, k))
    decreases |env.writes| - i
  {
    hide GoesOn, Script;
    if i >= |env.writes| - 1 || !env.writes[i] || !GoesOn(op, env, i) {
    } else {
      CtrlZOutMeans(op, env, i + 1);
    }
  }

  /** The unsolicited lines heard by the first n parts. */
  function HeardBy(op: Op, env: Env, n: nat): seq<string>
    requires env.Covers(op) && n <= |env.writes|
  {
    if n == 0 then [] else HeardBy(op, env, n - 1) + PartAnswer(op, env, n - 1).urcs
  }

  /** No unsolicited line gets lost: what a submission hands on is what was heard
      behind each of its writes, in order. */
  lemma {:induction false} NoneHeardIsLost(op: Op, env: Env, i: nat)
    requires env.Covers(op) && i <= |env.writes|
    ensures HeardBy(op, env, i) + Collected(op, env, i) == HeardBy(op, env, Progress(op, env, i))
    decreases |env.writes| - i
  {
    hide PartAnswer, GoesOn, Script;
    if i < |env.writes| && env.writes[i] && i < |env.writes| - 1 && GoesOn(op, env, i) {
      NoneHeardIsLost(op, env, i + 1);
    }
  }

  // ---------------------------------------------------------------- the adapter

  /** One encoded part of the message. */
  datatype Segment = Segment(body: string, pdu: string)

  datatype Sending = Submit(op: Op) | Malformed

  function HexDigitValue(c: char): int {
    match SmsInbox.HexValue(c) case Some(v) => v case None => -1
  }

  /** strconv.ParseInt(s, 16, 8) of two characters; 0 where it errs. */
  function SmscLength(s: string): int
    requires |s| == 2
  {
    var hi, lo := HexDigitValue(s[0]), HexDigitValue(s[1]);
    if lo < 0 then 0
    else if s[0] == '-' then 0 - lo
    else if s[0] == '+' then lo
    else if hi < 0 || hi * 16 + lo > 127 then 0
    else hi * 16 + lo
  }

  /** What the adapter submits for a part: text mode for a short number and a body
      in the module's own alphabet, PDU mode otherwise. */
  function SendingFor(destination: string, segment: Segment, gsm7: bool): Sending {
    var to := TrimSpace(destination);
    if |to| <= 6 && segment.body != "" && gsm7 then Submit(SubmitText(to, segment.body))
    else
      var bytes := |TrimSpace(segment.pdu)| / 2;
      if segment.pdu == "" || bytes < 2 then Malformed
      else
        var length := bytes - 1 - SmscLength(segment.pdu[..2]);
        if length < 1 then Malformed else Submit(SubmitPdu(length, segment.pdu))
  }

  /** Text mode is for short numbers and the module's own alphabet, exactly. */
  lemma TextModeIff(destination: string, segment: Segment, gsm7: bool)
    ensures SendingFor(destination, segment, gsm7) == Submit(SubmitText(TrimSpace(destination), segment.body)) <==>
            |TrimSpace(destination)| <= 6 && segment.body != "" && gsm7
    ensures SendingFor(destination, segment, gsm7).Submit? && SendingFor(destination, segment, gsm7).op.SubmitText? ==>
              |TrimSpace(destination)| <= 6 && segment.body != "" && gsm7
  {
    hide TrimSpace, SmscLength;
  }

  /** A PDU as it is encoded: the length of the service centre's field, that field, and
      the message proper. */
  function EncodedPdu(smsc: seq<SmsInbox.Octet>, tpdu: seq<SmsInbox.Octet>): string
    requires |smsc| < 256
  {
    SmsInbox.HexText([|smsc| as SmsInbox.Octet] + smsc + tpdu)
  }

  /** The number a PDU is announced with is that of the octets of the message proper,
      for every service centre field of at most 127 octets; from 128 octets on the
      field is counted in. */
  lemma PduLength(destination: string, body: string, gsm7: bool, smsc: seq<SmsInbox.Octet>, tpdu: seq<SmsInbox.Octet>)
    requires |smsc| < 256 && tpdu != [] && !(|TrimSpace(destination)| <= 6 && body != "" && gsm7)
    ensures SendingFor(destination, Segment(body, EncodedPdu(smsc, tpdu)), gsm7)
            == Submit(SubmitPdu(if |smsc| <= 127 then |tpdu| else |smsc| + |tpdu|, EncodedPdu(smsc, tpdu)))
  {
    hide TrimSpace, SmsInbox.HexText, SendingFor;
    LengthOfAnyPdu(destination, body, gsm7, |smsc|, smsc + tpdu);
    assert [|smsc| as SmsInbox.Octet] + (smsc + tpdu) == [|smsc| as SmsInbox.Octet] + smsc + tpdu;
  }

  /** Whatever the first octet says: it is taken off as long as it is below 128, and
      a PDU of which nothing is left is refused. */
  lemma LengthOfAnyPdu(destination: string, body: string, gsm7: bool, first: SmsInbox.Octet, rest: seq<SmsInbox.Octet>)
    requires !(|TrimSpace(destination)| <= 6 && body != "" && gsm7)
    ensures var pdu := SmsInbox.HexText([first] + rest);
            var left := |rest| - if first <= 127 then first else 0;
            SendingFor(destination, Segment(body, pdu), gsm7) == if left < 1 then Malformed else Submit(SubmitPdu(left, pdu))
  {
    hide *;
    var pdu := SmsInbox.HexText([first] + rest);
    FirstPair(first, rest);
    SendingOfPdu(destination, Segment(body, pdu), gsm7, 1 + |rest|, if first <= 127 then first else 0);
  }

  lemma SendingOfPdu(destination: string, segment: Segment, gsm7: bool, bytes: nat, field: nat)
    requires !(|TrimSpace(destination)| <= 6 && segment.body != "" && gsm7)
    requires bytes >= 1 && |segment.pdu| == 2 * bytes && TrimSpace(segment.pdu) == segment.pdu
    requires SmscLength(segment.pdu[..2]) == field
    ensures SendingFor(destination, segment, gsm7)
            == if bytes - 1 - field < 1 then Malformed else Submit(SubmitPdu(bytes - 1 - field, segment.pdu))
  {
    hide TrimSpace, SmscLength;
  }

  lemma FirstPair(first: SmsInbox.Octet, rest: seq<SmsInbox.Octet>)
    ensures var pdu := SmsInbox.HexText([first] + rest);
            && |pdu| == 2 * (1 + |rest|) && TrimSpace(pdu) == pdu && SmscLength(pdu[..2]) == if first <= 127 then first else 0
  {
    hide TrimSpace, SmsInbox.HexText, SmscLength;
    var bytes := [first] + rest;
    var pdu := SmsInbox.HexText(bytes);
    SmsInbox.HexRoundTrip(bytes);
    HexIsTrimmed(pdu);
    SmsInbox.HexStep(bytes);
    assert pdu[..2] == [SmsInbox.HEX_DIGITS[first / 16], SmsInbox.HEX_DIGITS[first % 16]];
    SmscOfHex(first);
  }

  lemma HexIsTrimmed(s: string)
    requires forall i :: 0 <= i < |s| ==> SmsInbox.IsHexDigit(s[i])
    ensures TrimSpace(s) == s
  {
    hide TrimSpace;
    assert Trimmed(s);
  }

  lemma SmscOfHex(n: nat)
    requires n < 256
    ensures SmscLength([SmsInbox.HEX_DIGITS[n / 16], SmsInbox.HEX_DIGITS[n % 16]]) == if n <= 127 then n else 0
  {
    SmsInbox.NibbleRoundTrip(n / 16);
    SmsInbox.NibbleRoundTrip(n % 16);
  }

  /** And that number is what the command on the wire says, ahead of exactly those
      octets. */
  lemma PduOnTheWire(smsc: seq<SmsInbox.Octet>, tpdu: seq<SmsInbox.Octet>, dryRun: bool)
    requires |smsc| <= 127 && 0 < |tpdu| <= INT64_MAX
    ensures var script := Script(SubmitPdu(|tpdu|, EncodedPdu(smsc, tpdu)), dryRun);
            && |script| == 3
            && |script[1]| > 9 && script[1][..8] == (if dryRun then "AT+CMGW=" else "AT+CMGS=")
            && script[1][|script[1]| - 1] == '\r' && Atoi(script[1][8..|script[1]| - 1]) == Some(|tpdu|)
            && |script[2]| > 0 && script[2][|script[2]| - 1] == '\U{1A}'
            && SmsInbox.DecodeHex(script[2][..|script[2]| - 1]) == Some([|smsc| as SmsInbox.Octet] + smsc + tpdu)
  {
    hide TrimSpace, SmsInbox.HexText, SmsInbox.DecodeHex, Script, Itoa, Atoi;
    var bytes := [|smsc| as SmsInbox.Octet] + smsc + tpdu;
    var pdu := EncodedPdu(smsc, tpdu);
    SmsInbox.HexRoundTrip(bytes);
    HexIsTrimmed(pdu);
    assert pdu != "";
    SubmissionTexts("", |tpdu|, pdu, "", "", dryRun);
    AtoiItoa(|tpdu|);
    ItoaShape(|tpdu|);
    var verb := if dryRun then "AT+CMGW=" else "AT+CMGS=";
    var text := verb + Itoa(|tpdu|) + "\r";
    assert text[..8] == verb && text[8..|text| - 1] == Itoa(|tpdu|);
    assert (pdu + "\U{1A}")[..|pdu|] == pdu;
  }

  /** What sending one part comes to: a confirmed submission still counts as not
      sent when no id can be drawn for it. */
  function PartResult(sending: Sending, env: Env): Submission
    requires sending.Submit? ==> env.Covers(sending.op)
  {
    if sending.Malformed? then NotSent
    else match Result(sending.op, env)
      case Confirmed => if env.idOk then Confirmed else NotSent
      case r => r
  }

  /** What sending one part writes to the port. */
  function PartWrites(sending: Sending, env: Env): seq<string>
    requires sending.Submit? ==> env.Covers(sending.op)
  {
    match sending
    case Malformed => []
    case Submit(op) => Script(op, env.dryRun)[..Progress(op, env, 0)]
  }

  method SendSms(port: SerialPort, destination: string, segment: Segment, gsm7: bool, env: Env) returns (result: Submission)
    requires var sending := SendingFor(destination, segment, gsm7); sending.Submit? ==> env.Covers(sending.op)
    modifies port
    ensures result == PartResult(SendingFor(destination, segment, gsm7), env)
    ensures port.written == old(port.written) + PartWrites(SendingFor(destination, segment, gsm7), env)
  {
    hide Result, Progress, Script, Collected, TrimSpace, SmscLength;
    var to := TrimSpace(destination);
    var urcs;
    if |to| <= 6 && segment.body != "" && gsm7 {
      result, urcs := SendTextLocked(port, to, segment.body, env);
    } else {
      if segment.pdu == "" {
        return NotSent;
      }
      var bytes := |TrimSpace(segment.pdu)| / 2;
      if bytes < 2 {
        return NotSent;
      }
      var length := bytes - 1 - SmscLength(segment.pdu[..2]);
      if length < 1 {
        return NotSent;
      }
      result, urcs := SendPduLocked(port, length, segment.pdu, env);
    }
    if result.Confirmed? && !env.idOk {
      result := NotSent;
    }
  }

  // ---------------------------------------------------------------- the engine

  datatype Status = Queued | Submitted | Sent | Failed

  /** The stored row and its copy in memory. accepts tells, write by write, which
      status updates the database takes. */
  class Record {
    var row: Status
    var message: Status
    var accepts: seq<bool>

    constructor (accepts: seq<bool>)
      ensures row == message == Queued && this.accepts == accepts
    {
      row, message := Queued, Queued;
      this.accepts := accepts;
    }

    method PersistStatus(status: Status) returns (ok: bool)
      requires accepts != []
      modifies this
      ensures ok == old(accepts)[0] && accepts == old(accepts)[1..]
      ensures row == if ok then status else old(row)
      ensures message == if ok then status else old(message)
    {
      ok := accepts[0];
      accepts := accepts[1..];
      if ok {
        row, message := status, status;
      }
    }
  }

  /** Number of parts submitted before the first one that is not confirmed. */
  function ConfirmedCount(results: seq<Submission>): (n: nat)
    ensures n <= |results|
    ensures forall i :: 0 <= i < n ==> results[i].Confirmed?
    ensures n < |results| ==> !results[n].Confirmed?
  {
    if results == [] || !results[0].Confirmed? then 0 else 1 + ConfirmedCount(results[1..])
  }

  /** The parts tried: the confirmed ones and the first one that is not. */
  function Tried(results: seq<Submission>): nat {
    if ConfirmedCount(results) < |results| then ConfirmedCount(results) + 1 else |results|
  }

  function FinalStatus(results: seq<Submission>): Status {
    var n := ConfirmedCount(results);
    if n == |results| then Sent else if results[n].InDoubt? then Submitted else Failed
  }

  /** All parts of one message: what would be submitted, and what the port makes
      of it. */
  datatype Job = Job(destination: string, segments: seq<Segment>, gsm7: seq<bool>, envs: seq<Env>) {
    predicate Valid() {
      && |segments| == |gsm7| == |envs| > 0
      && forall i :: 0 <= i < |segments| ==> Sending(i).Submit? ==> envs[i].Covers(Sending(i).op)
    }

    function Sending(i: nat): Sending
      requires |segments| == |gsm7| && i < |segments|
    {
      SendingFor(destination, segments[i], gsm7[i])
    }

    /** Everything the first n parts write. */
    function Writes(n: nat): seq<string>
      requires Valid() && n <= |segments|
    {
      if n == 0 then [] else Writes(n - 1) + PartWrites(Sending(n - 1), envs[n - 1])
    }

    function Results(): (r: seq<Submission>)
      requires Valid()
      ensures |r| == |segments|
    {
      seq(|segments|, i requires 0 <= i < |segments| => PartResult(Sending(i), envs[i]))
    }
  }

  lemma StopsAt(results: seq<Submission>, n: nat)
    requires n < |results| && !results[n].Confirmed? && forall i :: 0 <= i < n ==> results[i].Confirmed?
    ensures ConfirmedCount(results) == n && Tried(results) == n + 1
    ensures FinalStatus(results) == if results[n].InDoubt? then Submitted else Failed
  {
  }

  lemma GoesThrough(results: seq<Submission>)
    requires forall i :: 0 <= i < |results| ==> results[i].Confirmed?
    ensures ConfirmedCount(results) == |results| == Tried(results) && FinalStatus(results) == Sent
  {
  }

  lemma TriesAtLeast(results: seq<Submission>, n: nat)
    requires n <= |results| && forall i :: 0 <= i < n ==> results[i].Confirmed?
    ensures Tried(results) >= n
  {
  }

  lemma NothingWritten(job: Job)
    requires job.Valid()
    ensures job.Writes(0) == []
  {
  }

  lemma PartOf(job: Job, i: nat)
    requires job.Valid() && i < |job.segments|
    ensures job.Results()[i] == PartResult(job.Sending(i), job.envs[i])
    ensures job.Writes(i + 1) == job.Writes(i) + PartWrites(job.Sending(i), job.envs[i])
  {
  }

  ghost predicate AllTaken(accepts: seq<bool>) {
    forall i :: 0 <= i < |accepts| ==> accepts[i]
  }

  /** Sends the parts in order and records how far that got. Whatever the database
      does, the copy in memory follows the row, and what is recorded never claims
      more than the port confirmed. */
  method Send(port: SerialPort, record: Record, job: Job) returns (failed: bool, tried: nat)
    requires job.Valid() && record.row == record.message == Queued
    requires |record.accepts| > |job.segments|
    modifies port, record
    ensures record.message == record.row
    ensures tried <= Tried(job.Results()) && port.written == old(port.written) + job.Writes(tried)
    ensures record.row.Sent? ==> tried == |job.segments| && FinalStatus(job.Results()) == Sent
    ensures record.row.Failed? ==> tried == Tried(job.Results()) && FinalStatus(job.Results()) == Failed
    ensures record.row.Submitted? ==> tried > 0 && !job.Results()[0].NotSent?
    ensures AllTaken(old(record.accepts)) ==>
              && record.row == FinalStatus(job.Results())
              && tried == Tried(job.Results())
              && failed == record.row.Failed?
  {
    hide PartResult, SendingFor, ConfirmedCount, Tried, FinalStatus, PartWrites, Progress, Script, Job.Results, Job.Writes;
    ghost var results := job.Results();
    ghost var start := record.accepts;
    tried := 0;
    assert job.Writes(0) == [] by { NothingWritten(job); }
    for i := 0 to |job.segments|
      invariant record.message == record.row
      invariant tried == i && |record.accepts| > |job.segments| - i
      invariant forall k :: 0 <= k < i ==> results[k].Confirmed?
      invariant record.row == if i == 0 then Queued else Submitted
      invariant port.written == old(port.written) + job.Writes(i)
      invariant AllTaken(start) ==> AllTaken(record.accepts)
    {
      var result := SendSms(port, job.destination, job.segments[i], job.gsm7[i], job.envs[i]);
      tried := i + 1;
      PartOf(job, i);
      if !result.Confirmed? {
        StopsAt(results, i);
        var ok := record.PersistStatus(if result.InDoubt? then Submitted else Failed);
        return !ok || result.NotSent?, tried;
      }
      TriesAtLeast(results, i + 1);
      var ok := record.PersistStatus(Submitted);
      if !ok {
        return true, tried;
      }
    }
    GoesThrough(results);
    var ok := record.PersistStatus(Sent);
    return !ok, tried;
  }

  // ---------------------------------------------------------------- what a status says about the port

  /** Part i was confirmed: its payload went out, the reply to it was OK, and an
      id could be drawn. */
  ghost predicate PartConfirmed(job: Job, i: nat)
    requires job.Valid() && i < |job.segments|
  {
    var env := job.envs[i];
    && job.Sending(i).Submit? && CtrlZOut(job.Sending(i).op, env)
    && Answer(env.answers[|env.answers| - 1], None).verdict.Accepted? && env.idOk
  }

  /** Part i is in doubt: its payload went out, and what came back is neither OK
      nor an error line. */
  ghost predicate PartInDoubt(job: Job, i: nat)
    requires job.Valid() && i < |job.segments|
  {
    var env := job.envs[i];
    && job.Sending(i).Submit? && CtrlZOut(job.Sending(i).op, env)
    && var v := Answer(env.answers[|env.answers| - 1], None).verdict;
       !v.Accepted? && !v.Refused?
  }

  /** Part i failed: nothing submittable, or its payload never went out, or the
      reply to it was an error line, or it was OK and no id could be drawn. */
  ghost predicate PartFailed(job: Job, i: nat)
    requires job.Valid() && i < |job.segments|
  {
    var env := job.envs[i];
    job.Sending(i).Submit? && CtrlZOut(job.Sending(i).op, env) ==>
      var v := Answer(env.answers[|env.answers| - 1], None).verdict;
      v.Refused? || (v.Accepted? && !env.idOk)
  }

  /** With status writes accepted the recorded status says, both ways, what was
      written and what was read back; it is never left at queued. */
  lemma StatusMeans(job: Job)
    requires job.Valid()
    ensures var status := FinalStatus(job.Results());
            && (status == Sent <==> forall i :: 0 <= i < |job.segments| ==> PartConfirmed(job, i))
            && (status == Submitted <==> exists k: nat :: k < |job.segments| && PartInDoubt(job, k) && forall i :: 0 <= i < k ==> PartConfirmed(job, i))
            && (status == Failed <==> exists k: nat :: k < |job.segments| && PartFailed(job, k) && forall i :: 0 <= i < k ==> PartConfirmed(job, i))
            && status != Queued
  {
    hide CtrlZOut, Answer, SendingFor;
    var results := job.Results();
    assert forall i :: 0 <= i < |results| ==> (results[i].Confirmed? <==> PartConfirmed(job, i));
    assert forall i :: 0 <= i < |results| ==> (results[i].InDoubt? <==> PartInDoubt(job, i));
    assert forall i :: 0 <= i < |results| ==> (results[i].NotSent? <==> PartFailed(job, i));
    StatusByFirstProblem(results);
    FirstProblemIsUnique(job, ConfirmedCount(results));
  }

  lemma StatusByFirstProblem(results: seq<Submission>)
    ensures var n := ConfirmedCount(results);
            && (FinalStatus(results) == Sent <==> n == |results|)
            && (FinalStatus(results) == Submitted <==> n < |results| && results[n].InDoubt?)
            && (FinalStatus(results) == Failed <==> n < |results| && results[n].NotSent?)
  {
  }

  lemma FirstProblemIsUnique(job: Job, n: nat)
    requires job.Valid() && n <= |job.segments|
    requires forall i :: 0 <= i < n ==> PartConfirmed(job, i)
    requires n < |job.segments| ==> !PartConfirmed(job, n)
    ensures forall k: nat :: k < |job.segments| && !PartConfirmed(job, k) && (forall i :: 0 <= i < k ==> PartConfirmed(job, i)) ==> k == n
  {
    hide PartConfirmed;
  }

  /** Part i is the first one that is not confirmed. */
  ghost predicate FirstAfterConfirmed(job: Job, i: nat)
    requires job.Valid()
  {
    i < |job.segments| && job.Sending(i).Submit? && forall k :: 0 <= k < i ==> PartConfirmed(job, k)
  }

  /** The reply to a payload, as the modem prints it: lines that do not close it, then
      one that does, cut up in any way and with anything behind. */
  ghost predicate Replies(input: seq<Read>, plain: seq<string>, last: string, echo: Option<string>) {
    && (forall k :: 0 <= k < |plain| ==> CleanLine(plain[k]) && !Closes(plain[k], echo))
    && CleanLine(last) && last != "" && Closes(last, echo) && OnPort(plain + [last]) <= Stream(input)
  }

  /** A payload that an error line answers makes the message failed, one that no line
      answers leaves it submitted, and OK confirms its part if there is an id. */
  lemma PayloadReplyDecides(job: Job, i: nat, plain: seq<string>, last: string)
    requires job.Valid() && FirstAfterConfirmed(job, i) && CtrlZOut(job.Sending(i).op, job.envs[i])
    ensures var input := job.envs[i].answers[|job.envs[i].answers| - 1];
            && (Replies(input, plain, last, None) && last != "OK" ==> FinalStatus(job.Results()) == Failed)
            && (Replies(input, plain, "OK", None) && job.envs[i].idOk ==> PartConfirmed(job, i))
            && (StaysOpen(input, None) ==> FinalStatus(job.Results()) == Submitted)
  {
    hide Answer, SendingFor, Replies, StaysOpen, FinalStatus, Job.Results, GoesOn, Script;
    var input := job.envs[i].answers[|job.envs[i].answers| - 1];
    StatusMeans(job);
    ReplyOrSilence(input, plain, last, None);
    ReplyOrSilence(input, plain, "OK", None);
    if Replies(input, plain, last, None) && last != "OK" {
      assert PartFailed(job, i);
    }
    if StaysOpen(input, None) {
      assert PartInDoubt(job, i);
    }
  }

  lemma StopIsNoReply(input: seq<Read>)
    ensures StopOf(input) in {TimedOut, ReadFailed, ContextEnded}
  {
  }

  /** A setup or submission command that an error line or nothing answers, or that
      cannot be written, ends the submission before its payload: the message failed. */
  lemma EarlyRefusalFails(job: Job, i: nat, part: nat)
    requires job.Valid() && FirstAfterConfirmed(job, i) && part < |job.envs[i].writes| - 1
    requires !job.envs[i].writes[part] || !GoesOn(job.Sending(i).op, job.envs[i], part)
    ensures FinalStatus(job.Results()) == Failed
    ensures Progress(job.Sending(i).op, job.envs[i], 0) < |job.envs[i].writes|
  {
    hide Answer, SendingFor, FinalStatus, Job.Results, GoesOn, Script;
    CtrlZOutMeans(job.Sending(i).op, job.envs[i], 0);
    StatusMeans(job);
    assert PartFailed(job, i);
  }

  /** Whether a setup goes on, from what the modem prints: exactly when OK closes the
      reply, the command's own echo left out. */
  lemma SetupGoesOn(op: Op, env: Env, part: nat, plain: seq<string>, last: string)
    requires env.Covers(op) && part < |env.answers| - 2
    requires Script(op, env.dryRun)[part] != ""
    ensures var script := Script(op, env.dryRun)[part];
            var echo := Some(script[..|script| - 1]);
            && (Replies(env.answers[part], plain, last, echo) ==> (GoesOn(op, env, part) <==> last == "OK"))
            && (StaysOpen(env.answers[part], echo) ==> !GoesOn(op, env, part))
  {
    hide Answer, Replies, StaysOpen, Script, GoesOn;
    var script := Script(op, env.dryRun)[part];
    SetupAnswer(op, env, part);
    ReplyOrSilence(env.answers[part], plain, last, Some(script[..|script| - 1]));
  }

  /** Nothing that arrives closes the reply. */
  ghost predicate StaysOpen(input: seq<Read>, echo: Option<string>) {
    forall k :: 0 <= k < |Lines(Stream(input))| ==> !Closes(Lines(Stream(input))[k], echo)
  }

  lemma SetupAnswer(op: Op, env: Env, part: nat)
    requires env.Covers(op) && part < |env.answers| - 2
    requires Script(op, env.dryRun)[part] != ""
    ensures var script := Script(op, env.dryRun)[part];
            GoesOn(op, env, part) <==> Answer(env.answers[part], Some(script[..|script| - 1])).verdict.Accepted?
  {
    hide Answer, Script;
  }

  lemma ReplyOrSilence(input: seq<Read>, plain: seq<string>, last: string, echo: Option<string>)
    ensures Replies(input, plain, last, echo) ==>
              Answer(input, echo).verdict == if last == "OK" then Accepted else Refused(last)
    ensures StaysOpen(input, echo) ==> Answer(input, echo).verdict in {TimedOut, ReadFailed, ContextEnded}
  {
    hide Answer, Closes, CleanLine, Lines, Stream, OnPort, StopOf;
    if Replies(input, plain, last, echo) {
      VerdictOfReply(plain, last, input, echo);
    }
    if StaysOpen(input, echo) {
      OpenReply(input, echo);
      StopIsNoReply(input);
    }
  }

  /** The submission command goes on when the prompt comes in a chunk before anything
      that closes a reply. */
  lemma CommandGoesOn(op: Op, env: Env, chunks: seq<string>, chunk: string, rest: seq<Read>)
    requires env.Covers(op) && |env.answers| >= 2 && env.answers[|env.answers| - 2] == Datas(chunks) + [Data(chunk)] + rest
    requires '>' in chunk && forall i :: 0 <= i < |chunks| ==> '>' !in chunks[i]
    requires forall i :: 0 <= i < |Lines(Concat(chunks))| ==> !Closes(Lines(Concat(chunks))[i], None)
    ensures GoesOn(op, env, |env.answers| - 2)
  {
    hide PromptAnswer, Closes, Lines, Concat, Datas, Script;
    PromptComes(chunks, chunk, rest);
  }

  /** Part i went through at the port: its payload went out and the reply was OK. */
  ghost predicate AcceptedByModem(job: Job, i: nat)
    requires job.Valid() && i < |job.segments|
  {
    var env := job.envs[i];
    && job.Sending(i).Submit? && CtrlZOut(job.Sending(i).op, env)
    && Answer(env.answers[|env.answers| - 1], None).verdict.Accepted?
  }

  /** A message all of whose parts the modem accepted when they were tried is
      nevertheless recorded as failed if and only if some part got no id; and then
      nothing after the first such part is sent, though the modem refused nothing. */
  lemma AcceptedYetFailed(job: Job)
    requires job.Valid() && forall i :: 0 <= i < |job.segments| ==> AcceptedByModem(job, i)
    ensures var status := FinalStatus(job.Results());
            && (status == Failed <==> exists k :: 0 <= k < |job.envs| && !job.envs[k].idOk)
            && (status == Sent <==> forall k :: 0 <= k < |job.envs| ==> job.envs[k].idOk)
            && (status == Failed ==>
                  && Tried(job.Results()) <= |job.segments| && !job.envs[Tried(job.Results()) - 1].idOk
                  && forall k :: 0 <= k < Tried(job.Results()) - 1 ==> job.envs[k].idOk)
  {
    hide AcceptedByModem, Job.Results, FinalStatus, Tried, ConfirmedCount;
    var results := job.Results();
    forall i | 0 <= i < |results|
      ensures results[i] == if job.envs[i].idOk then Confirmed else NotSent
    {
      AcceptedPart(job, i);
    }
    StatusByFirstProblem(results);
    TriedIs(results);
    var n := ConfirmedCount(results);
    if n < |results| {
      assert !job.envs[n].idOk;
    }
  }

  lemma AcceptedPart(job: Job, i: nat)
    requires job.Valid() && i < |job.segments| && AcceptedByModem(job, i)
    ensures job.Results()[i] == if job.envs[i].idOk then Confirmed else NotSent
  {
    hide CtrlZOut, Answer, SendingFor;
  }

  lemma TriedIs(results: seq<Submission>)
    ensures var n := ConfirmedCount(results);
            && n <= |results| && (forall i :: 0 <= i < n ==> results[i].Confirmed?) && (n < |results| ==> !results[n].Confirmed?)
            && Tried(results) == if n < |results| then n + 1 else |results|
  {
  }

  /** Such a message: one short text, every answer of the modem an OK or a prompt,
      no id to draw. */
  lemma AcceptedTextWithoutId() returns (job: Job)
    ensures job.Valid() && |job.segments| == 1 && AcceptedByModem(job, 0) && FinalStatus(job.Results()) == Failed
  {
    hide Answer, PromptAnswer, TrimSpace, PartAnswer, Progress;
    var ok, prompt := [Data("OK\r\n")], [Data("> ")];
    var env := Env(false, [true, true, true, true], [ok, ok, prompt, ok], false);
    var op := SubmitText("10086", "HI");
    job := Job("10086", [Segment("HI", "")], [true], [env]);
    assert TrimSpace("10086") == "10086" && TrimSpace("HI") == "HI";
    TextParts("10086", "HI", env);
    OkIsAccepted(Some("AT+CMGF=1"));
    OkIsAccepted(Some("AT+CSCS=\"GSM\""));
    OkIsAccepted(None);
    PromptIsSeen();
    OnePart(op, env, 0);
    OnePart(op, env, 1);
    OnePart(op, env, 2);
    OnePart(op, env, 3);
    AcceptedYetFailed(job);
  }

  lemma OkIsAccepted(echo: Option<string>)
    requires echo.Some? ==> echo.value != "" && echo.value[0] == 'A'
    ensures Answer([Data("OK\r\n")], echo).verdict.Accepted?
  {
    hide Contains, TrimSpace, ToLower;
    var s := "OK\r\n";
    StreamOfOne(Data(s));
    assert s[..3] == "OK\r";
    LfIndexIs(s, 3);
    assert s[4..] == "" && "OK\r"[..2] == "OK";
    assert Lines("") == [] && Lines(s) == ["OK"];
    NotContained("OK", "NO CARRIER", 0);
    NotContained("OK", "BUSY", 0);
    NotContained("OK", "NO ANSWER", 0);
    assert echo.Some? ==> ToLower("OK")[0] != ToLower(echo.value)[0];
    assert ["OK"][1..] == [];
    assert ScanLines(["OK"], echo) == Scan(["OK"], [], true);
  }

  lemma PromptIsSeen()
    ensures PromptAnswer([Data("> ")]).verdict.Prompted?
  {
    var input := [Data("> ")];
    assert '>' in input[0].chunk;
    assert input[..0] == [];
    assert PromptAt(input) == Some(0);
    NothingRead(input, None);
  }
}
