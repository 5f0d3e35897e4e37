/** The serial side of the AT client: the incremental line parser, and the reader
    that sorts the lines of one command exchange into echo, unsolicited lines and
    reply. */
module AtLines {
  import opened Text

  // ---------------------------------------------------------------- lines of a byte stream

  function LfIndex(s: string): (i: int)
    ensures i < 0 ==> i == -1 && '\n' !in s
    ensures i >= 0 ==> i < |s| && s[i] == '\n' && '\n' !in s[..i]
  {
    IndexAny(s, {'\n'})
  }

  function Clean(raw: string): string {
    TrimSpace(if raw != "" && raw[|raw| - 1] == '\r' then raw[..|raw| - 1] else raw)
  }

  /** The line a raw one reads as; a blank one is dropped. */
  function Kept(raw: string): seq<string> {
    if Clean(raw) == "" then [] else [Clean(raw)]
  }

  /** The complete non-blank lines of a stream. */
  function Lines(s: string): seq<string> {
    var i := LfIndex(s);
    if i < 0 then [] else Kept(s[..i]) + Lines(s[i + 1..])
  }

  /** The unfinished last line. */
  function Rest(s: string): (r: string)
    ensures '\n' !in r
  {
    var i := LfIndex(s);
    if i < 0 then s else Rest(s[i + 1..])
  }

  lemma LfIndexIs(s: string, i: nat)
    requires i < |s| && s[i] == '\n' && '\n' !in s[..i]
    ensures LfIndex(s) == i
  {
    forall k | 0 <= k < i
      ensures s[k] !in {'\n'}
    {
      assert s[..i][k] == s[k];
    }
    IndexAnyIs(s, {'\n'}, i);
  }

  lemma {:induction false} LinesConcat(a: string, b: string)
    ensures Lines(a + b) == Lines(a) + Lines(Rest(a) + b)
    ensures Rest(a + b) == Rest(Rest(a) + b)
    decreases |a|
  {
    hide Lines, Rest, Kept;
    var i := LfIndex(a);
    LinesStep(a);
    LinesStep(a + b);
    if i < 0 {
    } else {
      assert (a + b)[..i] == a[..i];
      LfIndexIs(a + b, i);
      assert (a + b)[i + 1..] == a[i + 1..] + b;
      LinesConcat(a[i + 1..], b);
    }
  }

  lemma LinesStep(s: string)
    ensures LfIndex(s) >= 0 ==> Lines(s) == Kept(s[..LfIndex(s)]) + Lines(s[LfIndex(s) + 1..]) && Rest(s) == Rest(s[LfIndex(s) + 1..])
    ensures LfIndex(s) < 0 ==> Lines(s) == [] && Rest(s) == s
  {
  }

  /** The parser keeps the unfinished line between two reads. */
  class Parser {
    var buffer: string

    constructor ()
      ensures buffer == ""
    {
      buffer := "";
    }

    method Feed(chunk: string) returns (lines: seq<string>)
      modifies this
      ensures lines == Lines(old(buffer) + chunk)
      ensures buffer == Rest(old(buffer) + chunk)
    {
      hide Lines, Rest, Clean, LfIndex;
      buffer := buffer + chunk;
      ghost var all := buffer;
      lines := [];
      var i := LfIndex(buffer);
      while i >= 0
        invariant i == LfIndex(buffer)
        invariant lines + Lines(buffer) == Lines(all)
        invariant Rest(buffer) == Rest(all)
        decreases |buffer|
      {
        LinesStep(buffer);
        var line := Clean(buffer[..i]);
        buffer := buffer[i + 1..];
        if line != "" {
          lines := lines + [line];
        }
        i := LfIndex(buffer);
      }
      LinesStep(buffer);
    }
  }

  function Concat(chunks: seq<string>): string {
    if chunks == [] then "" else chunks[0] + Concat(chunks[1..])
  }

  /** The lines Feed returns over a whole sequence of reads. */
  function FeedAll(buffer: string, chunks: seq<string>): seq<string>
    decreases |chunks|
  {
    if chunks == [] then [] else Lines(buffer + chunks[0]) + FeedAll(Rest(buffer + chunks[0]), chunks[1..])
  }

  /** However a stream is cut into reads, the lines are those of the stream. */
  lemma {:induction false} FeedIgnoresChunking(buffer: string, chunks: seq<string>)
    requires '\n' !in buffer
    ensures FeedAll(buffer, chunks) == Lines(buffer + Concat(chunks))
    decreases |chunks|
  {
    hide Lines, Rest;
    if chunks == [] {
      assert buffer + "" == buffer;
      LinesStep(buffer);
    } else {
      var head := buffer + chunks[0];
      FeedIgnoresChunking(Rest(head), chunks[1..]);
      LinesConcat(head, Concat(chunks[1..]));
      assert buffer + Concat(chunks) == head + Concat(chunks[1..]);
    }
  }

  // ---------------------------------------------------------------- kinds of lines

  predicate HasPrefix(s: string, p: string) {
    p <= s
  }

  predicate IsFinal(line: string) {
    line == "OK" || line == "ERROR" || HasPrefix(line, "+CME ERROR") || HasPrefix(line, "+CMS ERROR")
  }

  /** A text that reads like the end of a call. */
  predicate EndsCall(text: string) {
    Contains(text, "NO CARRIER") || Contains(text, "BUSY") || Contains(text, "NO ANSWER")
  }

  predicate IsUnsolicited(line: string) {
    var t := TrimSpace(line);
    t == "RING" || HasPrefix(t, "+CLIP:") || HasPrefix(t, "+CMTI:") || HasPrefix(t, "+CMT:") || EndsCall(t)
  }

  predicate EqualFold(a: string, b: string) {
    ToLower(a) == ToLower(b)
  }

  datatype Kind = Echo | Urc | Reply

  /** echo is the command whose echo is skipped; the readers of a submission's
      replies skip none. */
  function KindOf(line: string, echo: Option<string>): Kind {
    if echo.Some? && EqualFold(line, echo.value) then Echo
    else if IsUnsolicited(line) then Urc
    else Reply
  }

  function Only(lines: seq<string>, kind: Kind, echo: Option<string>): seq<string> {
    if lines == [] then []
    else (if KindOf(lines[0], echo) == kind then [lines[0]] else []) + Only(lines[1..], kind, echo)
  }

  lemma NothingIsOnly(echo: Option<string>)
    ensures forall kind :: Only([], kind, echo) == []
  {
  }

  lemma OnlyCons(line: string, rest: seq<string>, kind: Kind, echo: Option<string>)
    ensures Only([line] + rest, kind, echo) == (if KindOf(line, echo) == kind then [line] else []) + Only(rest, kind, echo)
  {
    hide KindOf;
    assert ([line] + rest)[1..] == rest;
  }

  // ---------------------------------------------------------------- scanning up to the final line

  datatype Scan = Scan(reply: seq<string>, urcs: seq<string>, done: bool)

  function ScanLines(lines: seq<string>, echo: Option<string>): Scan {
    if lines == [] then Scan([], [], false)
    else
      match KindOf(lines[0], echo)
      case Echo => ScanLines(lines[1..], echo)
      case Urc => var s := ScanLines(lines[1..], echo); s.(urcs := [lines[0]] + s.urcs)
      case Reply =>
        if IsFinal(lines[0]) then Scan([lines[0]], [], true)
        else var s := ScanLines(lines[1..], echo); s.(reply := [lines[0]] + s.reply)
  }

  /** How many lines the scan looks at: all of them, or up to the first final
      reply line. */
  function Used(lines: seq<string>, echo: Option<string>): (n: nat)
    ensures n <= |lines|
  {
    if lines == [] then 0
    else if KindOf(lines[0], echo).Reply? && IsFinal(lines[0]) then 1
    else 1 + Used(lines[1..], echo)
  }

  ghost predicate Ends(line: string, echo: Option<string>) {
    KindOf(line, echo).Reply? && IsFinal(line)
  }

  /** Echo, unsolicited and reply lines are an order-preserving partition of the
      lines up to the first final one. */
  lemma {:induction false} ScanPartitions(lines: seq<string>, echo: Option<string>)
    ensures var n, s := Used(lines, echo), ScanLines(lines, echo);
            && s.reply == Only(lines[..n], Reply, echo) && s.urcs == Only(lines[..n], Urc, echo)
            && |s.reply| + |s.urcs| + |Only(lines[..n], Echo, echo)| == n
  {
    hide KindOf, IsFinal, ScanLines, Only;
    NothingIsOnly(echo);
    if lines == [] {
      NothingScanned(echo);
    } else {
      assert lines == [lines[0]] + lines[1..];
      ScanCons(lines[0], lines[1..], echo);
      var n := Used(lines, echo);
      if KindOf(lines[0], echo).Reply? && IsFinal(lines[0]) {
        assert lines[..n] == [lines[0]] + [];
        forall kind
          ensures Only(lines[..n], kind, echo) == if kind == Reply then [lines[0]] else []
        {
          OnlyCons(lines[0], [], kind, echo);
        }
      } else {
        ScanPartitions(lines[1..], echo);
        assert lines[..n] == [lines[0]] + lines[1..][..n - 1];
        forall kind
          ensures Only(lines[..n], kind, echo)
                  == (if KindOf(lines[0], echo) == kind then [lines[0]] else []) + Only(lines[1..][..n - 1], kind, echo)
        {
          OnlyCons(lines[0], lines[1..][..n - 1], kind, echo);
        }
      }
    }
  }

  /** The scan is done exactly when a final reply line turns up, and that line is
      the last one used and the last of the reply. */
  lemma {:induction false} ScanStopsAtFinal(lines: seq<string>, echo: Option<string>)
    ensures var n, s := Used(lines, echo), ScanLines(lines, echo);
            && (s.done <==> n > 0 && Ends(lines[n - 1], echo))
            && (s.done ==> s.reply != [] && s.reply[|s.reply| - 1] == lines[n - 1])
            && (!s.done ==> n == |lines|)
            && (forall i :: 0 <= i < n - 1 ==> !Ends(lines[i], echo))
  {
    hide KindOf, IsFinal;
    if lines == [] || Ends(lines[0], echo) {
    } else {
      ScanStopsAtFinal(lines[1..], echo);
      var n := Used(lines, echo);
      forall i | 0 <= i < n - 1
        ensures !Ends(lines[i], echo)
      {
        if i > 0 {
          assert lines[1..][i - 1] == lines[i];
        }
      }
    }
  }

  function Join(a: Scan, b: Scan): Scan {
    if a.done then a else Scan(a.reply + b.reply, a.urcs + b.urcs, b.done)
  }

  lemma NothingScanned(echo: Option<string>)
    ensures ScanLines([], echo) == Scan([], [], false)
  {
  }

  lemma ScanCons(line: string, rest: seq<string>, echo: Option<string>)
    ensures ScanLines([line] + rest, echo) ==
            match KindOf(line, echo)
            case Echo => ScanLines(rest, echo)
            case Urc => Join(Scan([], [line], false), ScanLines(rest, echo))
            case Reply => if IsFinal(line) then Scan([line], [], true) else Join(Scan([line], [], false), ScanLines(rest, echo))
  {
    hide KindOf, IsFinal;
    assert ([line] + rest)[1..] == rest;
    assert forall s: seq<string> :: [] + s == s;
  }

  lemma {:induction false} ScanConcat(a: seq<string>, b: seq<string>, echo: Option<string>)
    ensures ScanLines(a + b, echo) == Join(ScanLines(a, echo), ScanLines(b, echo))
  {
    hide KindOf, IsFinal, ScanLines;
    if a == [] {
      assert a + b == b;
      NothingScanned(echo);
    } else {
      assert a + b == [a[0]] + (a[1..] + b) && a == [a[0]] + a[1..];
      ScanConcat(a[1..], b, echo);
      ScanCons(a[0], a[1..], echo);
      ScanCons(a[0], a[1..] + b, echo);
    }
  }

  // ---------------------------------------------------------------- reading the port

  /** What one turn of a read loop sees. A read can return bytes together with an
      error; a context can be found done instead of reading. */
  datatype Read = Data(chunk: string) | DataThenError(chunk: string, deadline: bool) | ContextDone

  datatype Verdict = Accepted | Refused(line: string) | Prompted | TimedOut | ReadFailed | ContextEnded

  datatype Outcome = Outcome(reply: seq<string>, urcs: seq<string>, verdict: Verdict)

  /** The bytes that arrive before the reader has to stop. */
  function Stream(input: seq<Read>): string {
    if input == [] then ""
    else match input[0]
      case Data(chunk) => chunk + Stream(input[1..])
      case DataThenError(chunk, _) => chunk
      case ContextDone => ""
  }

  /** Why it has to stop. A silent port ends with the context. */
  function StopOf(input: seq<Read>): Verdict {
    if input == [] then ContextEnded
    else match input[0]
      case Data(_) => StopOf(input[1..])
      case DataThenError(_, deadline) => if deadline then TimedOut else ReadFailed
      case ContextDone => ContextEnded
  }

  function Settle(s: Scan, stop: Verdict): Outcome {
    if !s.done || s.reply == [] then Outcome([], s.urcs, stop)
    else
      var last := s.reply[|s.reply| - 1];
      Outcome(s.reply, s.urcs, if last == "OK" then Accepted else Refused(last))
  }

  /** What reading for a final line comes to, as a function of the stream. */
  function Answer(input: seq<Read>, echo: Option<string>): Outcome {
    Settle(ScanLines(Lines(Stream(input)), echo), StopOf(input))
  }

  /** The read that shows the submission prompt, if the reader gets that far. */
  function PromptAt(input: seq<Read>): (r: Option<nat>)
    ensures r.Some? ==> r.value < |input| && forall i :: 0 <= i < r.value ==> input[i].Data?
  {
    if input == [] || input[0].ContextDone? then None
    else if '>' in input[0].chunk then Some(0)
    else if input[0].DataThenError? then None
    else match PromptAt(input[1..]) case Some(i) => Some(i + 1) case None => None
  }

  /** What waiting for the prompt comes to: the prompt counts only when no final
      line was completed by an earlier read. */
  function PromptAnswer(input: seq<Read>): Outcome {
    var p := PromptAt(input);
    if p.Some? && !ScanLines(Lines(Stream(input[..p.value])), None).done then
      var s := ScanLines(Lines(Stream(input[..p.value])), None);
      Outcome(s.reply, s.urcs, Prompted)
    else Answer(input, None)
  }

  lemma {:induction false} StreamConcat(a: seq<Read>, b: seq<Read>)
    requires forall i :: 0 <= i < |a| ==> a[i].Data?
    ensures Stream(a + b) == Stream(a) + Stream(b)
    ensures StopOf(a + b) == StopOf(b)
  {
    if a == [] {
      assert a + b == b;
    } else {
      assert (a + b)[0] == a[0] && (a + b)[1..] == a[1..] + b;
      StreamConcat(a[1..], b);
    }
  }

  /** More bytes after a complete answer do not change it. */
  lemma LaterBytesDoNotMatter(before: string, after: string, echo: Option<string>)
    ensures ScanLines(Lines(before + after), echo)
            == Join(ScanLines(Lines(before), echo), ScanLines(Lines(Rest(before) + after), echo))
  {
    LinesConcat(before, after);
    ScanConcat(Lines(before), Lines(Rest(before) + after), echo);
  }

  /** Two fragmentations of a stream that holds a final line get the same answer,
      whatever follows it and however the reading would have ended. */
  lemma AnswerIgnoresFragmentation(first: seq<Read>, second: seq<Read>, stream: string, echo: Option<string>)
    requires ScanLines(Lines(stream), echo).done
    requires stream <= Stream(first) && stream <= Stream(second)
    ensures Answer(first, echo) == Answer(second, echo)
  {
    hide *;
    HeadDecides(first, stream, echo);
    HeadDecides(second, stream, echo);
  }

  lemma HeadDecides(input: seq<Read>, stream: string, echo: Option<string>)
    requires ScanLines(Lines(stream), echo).done && stream <= Stream(input)
    ensures Answer(input, echo) == Settle(ScanLines(Lines(stream), echo), Accepted)
  {
    hide ScanLines, Lines, Stream, StopOf, Rest, Used, Ends;
    var later := Stream(input)[|stream|..];
    assert Stream(input) == stream + later;
    LaterBytesDoNotMatter(stream, later, echo);
    ScanStopsAtFinal(Lines(stream), echo);
  }

  // ---------------------------------------------------------------- what the modem prints

  /** Lines as they cross the port. */
  function OnPort(lines: seq<string>): string {
    if lines == [] then "" else lines[0] + "\r\n" + OnPort(lines[1..])
  }

  function NonBlank(lines: seq<string>): seq<string> {
    if lines == [] then [] else (if lines[0] == "" then [] else [lines[0]]) + NonBlank(lines[1..])
  }

  ghost predicate CleanLine(line: string) {
    Trimmed(line) && '\n' !in line
  }

  lemma {:induction false} LinesOnPort(lines: seq<string>)
    requires forall i :: 0 <= i < |lines| ==> CleanLine(lines[i])
    ensures Lines(OnPort(lines)) == NonBlank(lines)
  {
    if lines == [] {
    } else {
      var s, raw := OnPort(lines), lines[0] + "\r";
      assert s == raw + "\n" + OnPort(lines[1..]);
      assert s[..|raw|] == raw && s[|raw| + 1..] == OnPort(lines[1..]);
      LfIndexIs(s, |raw|);
      assert raw[..|raw| - 1] == lines[0];
      LinesOnPort(lines[1..]);
      assert forall i :: 0 <= i < |lines[1..]| ==> lines[1..][i] == lines[i + 1];
    }
  }

  /** The lines a reader gets to see, behind whatever it has read before. */
  lemma NonBlankJoin(a: seq<string>, b: seq<string>)
    ensures NonBlank(a + b) == NonBlank(a) + NonBlank(b)
  {
    if a == [] {
      assert a + b == b;
    } else {
      assert (a + b)[1..] == a[1..] + b;
      NonBlankJoin(a[1..], b);
    }
  }

  /** A line that ends a reply: success, or one of the three kinds of error. */
  ghost predicate EndsReply(line: string) {
    line == "OK" || line == "ERROR" || "+CME ERROR" <= line || "+CMS ERROR" <= line
  }

  /** The texts that are filed as unsolicited lines. */
  ghost predicate ComesUnasked(line: string) {
    || line == "RING" || "+CLIP:" <= line || "+CMTI:" <= line || "+CMT:" <= line
    || exists a: string, b: string :: line in {a + "NO CARRIER" + b, a + "BUSY" + b, a + "NO ANSWER" + b}
  }

  lemma ContainsIff(s: string, w: string)
    ensures Contains(s, w) <==> exists a: string, b: string :: s == a + w + b
  {
    if Contains(s, w) {
      var i := IndexOf(s, w);
      assert s == s[..i] + w + s[i + |w|..];
    }
    if a: string, b: string :| s == a + w + b {
      assert s[|a|..|a| + |w|] == w;
      assert At(s, w, |a|);
    }
  }

  /** A line as the parser returns it is unsolicited exactly when it is one of the
      texts the modem prints unasked. */
  lemma UnsolicitedIff(line: string)
    requires Trimmed(line)
    ensures IsUnsolicited(line) <==> ComesUnasked(line)
  {
    hide Contains, TrimSpace;
    ContainsIff(line, "NO CARRIER");
    ContainsIff(line, "BUSY");
    ContainsIff(line, "NO ANSWER");
    if a: string, b: string :| line in {a + "NO CARRIER" + b, a + "BUSY" + b, a + "NO ANSWER" + b} {
      assert line == a + "NO CARRIER" + b || line == a + "BUSY" + b || line == a + "NO ANSWER" + b;
    }
    if EndsCall(line) {
      EndsCallText(line);
    }
  }

  lemma EndsCallText(line: string)
    requires EndsCall(line)
    ensures exists a: string, b: string :: line in {a + "NO CARRIER" + b, a + "BUSY" + b, a + "NO ANSWER" + b}
  {
    hide Contains;
    ContainsIff(line, "NO CARRIER");
    ContainsIff(line, "BUSY");
    ContainsIff(line, "NO ANSWER");
    if a: string, b: string :| line == a + "NO CARRIER" + b {
      assert line in {a + "NO CARRIER" + b, a + "BUSY" + b, a + "NO ANSWER" + b};
    } else if a: string, b: string :| line == a + "BUSY" + b {
      assert line in {a + "NO CARRIER" + b, a + "BUSY" + b, a + "NO ANSWER" + b};
    } else {
      var a: string, b: string :| line == a + "NO ANSWER" + b;
      assert line in {a + "NO CARRIER" + b, a + "BUSY" + b, a + "NO ANSWER" + b};
    }
  }

  /** What becomes of a line of the modem: the echo of the command in any case is
      skipped, what comes unasked is handed on, all else is the reply. */
  lemma KindIs(line: string, echo: Option<string>)
    requires Trimmed(line)
    ensures KindOf(line, echo) ==
              if echo.Some? && ToLower(line) == ToLower(echo.value) then Echo else if ComesUnasked(line) then Urc else Reply
  {
    hide IsUnsolicited;
    UnsolicitedIff(line);
  }

  /** A line that belongs to a reply and ends it. */
  ghost predicate Closes(line: string, echo: Option<string>) {
    EndsReply(line) && !ComesUnasked(line) && (echo.Some? ==> ToLower(line) != ToLower(echo.value))
  }

  lemma EndsIff(line: string, echo: Option<string>)
    requires Trimmed(line)
    ensures Ends(line, echo) <==> Closes(line, echo)
  {
    hide KindOf, ComesUnasked;
    KindIs(line, echo);
  }

  lemma {:induction false} ScanUpTo(plain: seq<string>, last: string, echo: Option<string>)
    requires forall i :: 0 <= i < |plain| ==> !Ends(plain[i], echo)
    requires Ends(last, echo)
    ensures ScanLines(plain + [last], echo) == Scan(Only(plain, Reply, echo) + [last], Only(plain, Urc, echo), true)
  {
    hide KindOf, IsFinal, ScanLines, Only;
    NothingIsOnly(echo);
    if plain == [] {
      assert plain + [last] == [last] + [];
      ScanCons(last, [], echo);
    } else {
      ScanUpTo(plain[1..], last, echo);
      assert plain + [last] == [plain[0]] + (plain[1..] + [last]) && plain == [plain[0]] + plain[1..];
      ScanCons(plain[0], plain[1..] + [last], echo);
      OnlyCons(plain[0], plain[1..], Reply, echo);
      OnlyCons(plain[0], plain[1..], Urc, echo);
    }
  }

  /** The verdict on what a modem prints, however it is cut up and whatever follows: the
      first line that closes the reply decides it, accepted if that is OK, refused with
      that very line otherwise. */
  lemma VerdictOfReply(plain: seq<string>, last: string, input: seq<Read>, echo: Option<string>)
    requires forall i :: 0 <= i < |plain| ==> CleanLine(plain[i]) && !Closes(plain[i], echo)
    requires CleanLine(last) && last != "" && Closes(last, echo) && OnPort(plain + [last]) <= Stream(input)
    ensures Answer(input, echo).verdict == if last == "OK" then Accepted else Refused(last)
    ensures Answer(input, echo).reply == Only(NonBlank(plain), Reply, echo) + [last]
    ensures Answer(input, echo).urcs == Only(NonBlank(plain), Urc, echo)
  {
    hide ScanLines, Lines, Stream, OnPort, Closes, Ends, CleanLine, NonBlank;
    LinesOnPort(plain + [last]);
    NonBlankJoin(plain, [last]);
    OneNonBlank(last);
    NonBlankAre(plain);
    forall i | 0 <= i < |NonBlank(plain)|
      ensures !Ends(NonBlank(plain)[i], echo)
    {
      var l := NonBlank(plain)[i];
      assert l in NonBlank(plain);
      var k :| 0 <= k < |plain| && plain[k] == l;
      CleanIsTrimmed(l);
      EndsIff(l, echo);
    }
    CleanIsTrimmed(last);
    EndsIff(last, echo);
    ScanUpTo(NonBlank(plain), last, echo);
    HeadDecides(input, OnPort(plain + [last]), echo);
  }

  lemma CleanIsTrimmed(line: string)
    requires CleanLine(line)
    ensures Trimmed(line)
  {
  }

  lemma OneNonBlank(line: string)
    requires line != ""
    ensures NonBlank([line]) == [line]
  {
    assert [line][1..] == [];
  }

  lemma {:induction false} NonBlankAre(lines: seq<string>)
    ensures forall l :: l in NonBlank(lines) ==> l in lines
  {
    if lines == [] {
    } else {
      NonBlankAre(lines[1..]);
    }
  }

  /** Without such a line the reply stays open: nothing of it is returned, and the
      verdict is why the reading stopped. */
  lemma OpenReply(input: seq<Read>, echo: Option<string>)
    requires forall i :: 0 <= i < |Lines(Stream(input))| ==> !Closes(Lines(Stream(input))[i], echo)
    ensures Answer(input, echo) == Outcome([], Only(Lines(Stream(input)), Urc, echo), StopOf(input))
  {
    hide Lines, Stream, Closes, Ends, ScanLines, Only;
    var lines := Lines(Stream(input));
    LinesAreTrimmed(Stream(input));
    ScanStopsAtFinal(lines, echo);
    ScanPartitions(lines, echo);
    assert lines[..|lines|] == lines;
    forall i | 0 <= i < |lines|
      ensures !Ends(lines[i], echo)
    {
      EndsIff(lines[i], echo);
    }
  }

  lemma {:induction false} LinesAreTrimmed(s: string)
    ensures forall i :: 0 <= i < |Lines(s)| ==> Trimmed(Lines(s)[i]) && Lines(s)[i] != ""
  {
    hide LfIndex, TrimSpace, Trimmed;
    LinesStep(s);
    var i := LfIndex(s);
    if i >= 0 {
      LinesAreTrimmed(s[i + 1..]);
    }
  }

  /** The bytes that come with an error or before the end of the context are read; why
      the reading stops is what happened then. */
  lemma StreamOf(chunks: seq<string>, chunk: string, deadline: bool)
    ensures Stream(Datas(chunks) + [DataThenError(chunk, deadline)]) == Concat(chunks) + chunk
    ensures StopOf(Datas(chunks) + [DataThenError(chunk, deadline)]) == if deadline then TimedOut else ReadFailed
    ensures Stream(Datas(chunks) + [ContextDone]) == Concat(chunks) == Stream(Datas(chunks))
    ensures StopOf(Datas(chunks) + [ContextDone]) == ContextEnded == StopOf(Datas(chunks))
  {
    hide Stream, StopOf, Concat;
    StreamOfDatas(chunks);
    StreamConcat(Datas(chunks), [DataThenError(chunk, deadline)]);
    StreamConcat(Datas(chunks), [ContextDone]);
    StreamOfOne(DataThenError(chunk, deadline));
    StreamOfOne(ContextDone);
    StopOfOne(chunk, deadline);
    StreamConcat(Datas(chunks), []);
    assert Datas(chunks) + [] == Datas(chunks) && Concat(chunks) + "" == Concat(chunks);
  }

  lemma StopOfOne(chunk: string, deadline: bool)
    ensures StopOf([DataThenError(chunk, deadline)]) == if deadline then TimedOut else ReadFailed
    ensures StopOf([ContextDone]) == ContextEnded && StopOf([]) == ContextEnded
  {
  }

  lemma {:induction false} StreamOfDatas(chunks: seq<string>)
    ensures Stream(Datas(chunks)) == Concat(chunks)
  {
    if chunks == [] {
    } else {
      StreamOfDatas(chunks[1..]);
      assert Datas(chunks)[1..] == Datas(chunks[1..]);
    }
  }

  function Datas(chunks: seq<string>): (r: seq<Read>)
    ensures |r| == |chunks| && forall i :: 0 <= i < |r| ==> r[i] == Data(chunks[i])
  {
    seq(|chunks|, i requires 0 <= i < |chunks| => Data(chunks[i]))
  }

  /** The wait for the prompt ends with the first chunk that holds one; lines in that
      chunk do not count. */
  lemma PromptComes(chunks: seq<string>, chunk: string, rest: seq<Read>)
    requires '>' in chunk && forall i :: 0 <= i < |chunks| ==> '>' !in chunks[i]
    requires forall i :: 0 <= i < |Lines(Concat(chunks))| ==> !Closes(Lines(Concat(chunks))[i], None)
    ensures PromptAnswer(Datas(chunks) + [Data(chunk)] + rest).verdict == Prompted
  {
    hide Lines, Stream, Closes, Ends, ScanLines, Datas, Concat;
    var input := Datas(chunks) + [Data(chunk)] + rest;
    var n := |chunks|;
    assert input[..n] == Datas(chunks) && input[n] == Data(chunk);
    PromptSplit(input, n, true);
    StreamOf(chunks, "", true);
    OpenReply(Datas(chunks), None);
    var lines := Lines(Concat(chunks));
    LinesAreTrimmed(Concat(chunks));
    ScanStopsAtFinal(lines, None);
    forall i | 0 <= i < |lines|
      ensures !Ends(lines[i], None)
    {
      EndsIff(lines[i], None);
    }
  }

  // ---------------------------------------------------------------- the reading loops

  class Reader {
    var parser: Parser
    var reply: seq<string>
    var urcs: seq<string>

    constructor ()
      ensures fresh(parser) && parser.buffer == "" && reply == [] && urcs == []
    {
      parser := new Parser();
      reply := [];
      urcs := [];
    }

    /** Takes one chunk's lines; stops at the final one. */
    method Take(chunk: string, echo: Option<string>) returns (final: Option<string>)
      modifies this, parser
      ensures parser == old(parser) && parser.buffer == Rest(old(parser.buffer) + chunk)
      ensures var s := ScanLines(Lines(old(parser.buffer) + chunk), echo);
              && reply == old(reply) + s.reply && urcs == old(urcs) + s.urcs
              && final.Some? == s.done && (s.done ==> s.reply != [] && final.value == s.reply[|s.reply| - 1])
    {
      hide KindOf, IsFinal, Lines;
      var lines := parser.Feed(chunk);
      ghost var all := ScanLines(lines, echo);
      for i := 0 to |lines|
        invariant !ScanLines(lines[..i], echo).done
        invariant reply == old(reply) + ScanLines(lines[..i], echo).reply
        invariant urcs == old(urcs) + ScanLines(lines[..i], echo).urcs
        invariant parser == old(parser) && parser.buffer == Rest(old(parser.buffer) + chunk)
      {
        ScanStep(lines, i, echo);
        match KindOf(lines[i], echo) {
          case Echo =>
          case Urc => urcs := urcs + [lines[i]];
          case Reply =>
            reply := reply + [lines[i]];
            if IsFinal(lines[i]) {
              return Some(lines[i]);
            }
        }
      }
      assert lines[..|lines|] == lines;
      return None;
    }

    /** Reads until the final line of a reply, skipping the command's echo. */
    method ReadReply(input: seq<Read>, echo: Option<string>) returns (out: Outcome)
      requires parser.buffer == "" && reply == [] && urcs == []
      modifies this, parser
      ensures out == Answer(input, echo)
    {
      out := ReadUntil(input, echo, false);
    }

    /** Reads until the submission prompt shows up in a chunk, or a final line. */
    method ReadPrompt(input: seq<Read>) returns (out: Outcome)
      requires parser.buffer == "" && reply == [] && urcs == []
      modifies this, parser
      ensures out == PromptAnswer(input)
    {
      out := ReadUntil(input, None, true);
    }

    method ReadUntil(input: seq<Read>, echo: Option<string>, prompt: bool) returns (out: Outcome)
      requires parser.buffer == "" && reply == [] && urcs == []
      requires prompt ==> echo.None?
      modifies this, parser
      ensures out == if prompt then PromptAnswer(input) else Answer(input, echo)
    {
      hide ScanLines, Lines, IsFinal, Stream, StopOf, PromptAt, Rest;
      ghost var seen := "";
      NothingRead(input, echo);
      for i := 0 to |input|
        invariant parser == old(parser) && parser.buffer == Rest(seen)
        invariant seen == Stream(input[..i])
        invariant forall k :: 0 <= k < i ==> input[k].Data? && (prompt ==> '>' !in input[k].chunk)
        invariant ScanLines(Lines(seen), echo) == Scan(reply, urcs, false)
      {
        PromptSplit(input, i, prompt);
        if input[i].ContextDone? {
          EndsWithContext(input, i);
          return Outcome([], urcs, ContextEnded);
        }
        if prompt && '>' in input[i].chunk {
          return Outcome(reply, urcs, Prompted);
        }
        LaterBytesDoNotMatter(seen, input[i].chunk, echo);
        var final := Take(input[i].chunk, echo);
        EndsWithChunk(input, i);
        if final.Some? {
          var later := Stream(input)[|seen + input[i].chunk|..];
          assert Stream(input) == seen + input[i].chunk + later;
          LaterBytesDoNotMatter(seen + input[i].chunk, later, echo);
          if prompt && PromptAt(input).Some? {
            PromptTooLate(input, i, PromptAt(input).value);
          }
          return Outcome(reply, urcs, if final.value == "OK" then Accepted else Refused(final.value));
        }
        if input[i].DataThenError? {
          return Outcome([], urcs, if input[i].deadline then TimedOut else ReadFailed);
        }
        LinesConcat(seen, input[i].chunk);
        SplitAtData(input, i);
        seen := seen + input[i].chunk;
      }
      assert input[..|input|] == input;
      AllData(input, prompt);
      return Outcome([], urcs, ContextEnded);
    }
  }

  lemma NothingRead(input: seq<Read>, echo: Option<string>)
    ensures Rest("") == "" && Stream(input[..0]) == "" && ScanLines(Lines(""), echo) == Scan([], [], false)
  {
  }

  lemma EndsWithContext(input: seq<Read>, i: nat)
    requires i < |input| && (forall k :: 0 <= k < i ==> input[k].Data?) && input[i].ContextDone?
    ensures Stream(input) == Stream(input[..i]) && StopOf(input) == ContextEnded
  {
    SplitReads(input, i);
  }

  lemma EndsWithChunk(input: seq<Read>, i: nat)
    requires i < |input| && (forall k :: 0 <= k < i ==> input[k].Data?) && !input[i].ContextDone?
    ensures Stream(input[..i]) + input[i].chunk <= Stream(input)
    ensures input[i].DataThenError? ==> Stream(input) == Stream(input[..i]) + input[i].chunk
    ensures input[i].DataThenError? ==> StopOf(input) == if input[i].deadline then TimedOut else ReadFailed
  {
    SplitReads(input, i);
  }

  /** A prompt after a complete answer is never reached. */
  lemma PromptTooLate(input: seq<Read>, i: nat, p: nat)
    requires i < p <= |input| && forall k :: 0 <= k < p ==> input[k].Data?
    requires ScanLines(Lines(Stream(input[..i]) + input[i].chunk), None).done
    ensures ScanLines(Lines(Stream(input[..p])), None).done
  {
    hide ScanLines, Lines, Stream;
    EndsWithChunk(input[..p], i);
    assert input[..p][..i] == input[..i];
    var head := Stream(input[..i]) + input[i].chunk;
    assert Stream(input[..p]) == head + Stream(input[..p])[|head|..];
    LaterBytesDoNotMatter(head, Stream(input[..p])[|head|..], None);
  }

  lemma AllData(input: seq<Read>, prompt: bool)
    requires forall k :: 0 <= k < |input| ==> input[k].Data? && (prompt ==> '>' !in input[k].chunk)
    ensures StopOf(input) == ContextEnded && (prompt ==> PromptAt(input) == None)
  {
    StreamConcat(input, []);
    assert input + [] == input;
    if prompt {
      NoPrompt(input);
    }
  }

  lemma ScanStep(lines: seq<string>, i: nat, echo: Option<string>)
    requires i < |lines| && !ScanLines(lines[..i], echo).done
    ensures ScanLines(lines[..i + 1], echo) == Join(ScanLines(lines[..i], echo), ScanLines([lines[i]], echo))
    ensures ScanLines(lines[..i + 1], echo).done ==> ScanLines(lines, echo) == ScanLines(lines[..i + 1], echo)
  {
    hide KindOf, IsFinal;
    assert lines[..i + 1] == lines[..i] + [lines[i]];
    ScanConcat(lines[..i], [lines[i]], echo);
    assert lines == lines[..i + 1] + lines[i + 1..];
    ScanConcat(lines[..i + 1], lines[i + 1..], echo);
  }

  lemma StreamOfOne(read: Read)
    ensures Stream([read]) == if read.ContextDone? then "" else read.chunk
  {
    assert [read][1..] == [];
  }

  lemma SplitReads(input: seq<Read>, i: nat)
    requires i < |input| && forall k :: 0 <= k < i ==> input[k].Data?
    ensures StopOf(input) == StopOf(input[i..])
    ensures Stream(input) == Stream(input[..i]) + Stream(input[i..])
  {
    assert input == input[..i] + input[i..];
    StreamConcat(input[..i], input[i..]);
  }

  lemma SplitAtData(input: seq<Read>, i: nat)
    requires i < |input| && forall k :: 0 <= k <= i ==> input[k].Data?
    ensures Stream(input[..i + 1]) == Stream(input[..i]) + input[i].chunk
  {
    hide Stream, StopOf;
    assert input[..i + 1] == input[..i] + [input[i]];
    StreamConcat(input[..i], [input[i]]);
    StreamOfOne(input[i]);
  }

  /** Where the prompt is, seen from a read before which there was none. */
  lemma {:induction false} PromptSplit(input: seq<Read>, i: nat, prompt: bool)
    requires i < |input| && forall k :: 0 <= k < i ==> input[k].Data? && (prompt ==> '>' !in input[k].chunk)
    ensures prompt && !input[i].ContextDone? && '>' in input[i].chunk ==> PromptAt(input) == Some(i)
    ensures prompt && !input[i].Data? && (input[i].ContextDone? || '>' !in input[i].chunk) ==> PromptAt(input) == None
    ensures prompt && PromptAt(input).Some? && (input[i].ContextDone? || '>' !in input[i].chunk) ==> PromptAt(input).value > i
  {
    if i == 0 || !prompt {
    } else {
      PromptSplit(input[1..], i - 1, prompt);
    }
  }

  lemma {:induction false} NoPrompt(input: seq<Read>)
    requires forall k :: 0 <= k < |input| ==> input[k].Data? && '>' !in input[k].chunk
    ensures PromptAt(input) == None
  {
    if input == [] {
    } else {
      NoPrompt(input[1..]);
    }
  }
}
