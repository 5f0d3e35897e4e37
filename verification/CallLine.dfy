/** The modem adapter's call bookkeeping: unsolicited lines, dials and hangups
    around one active call, and the one incoming event an incoming call is owed. */
module CallLine {
  import opened Text
  import opened AtLines
  import opened ModemEvents

  /** active is "" while no call is up. scheduled are the incoming events whose
      publication waits for the caller's number; used are the ids handed out; events
      wait for the consumer, taken are those it has; dials and hangups are the ones
      whose exchange with the modem is under way. */
  datatype Desk = Desk(active: string, incomingSent: bool, pendingPeer: string, scheduled: seq<string>, used: set<string>,
                       events: seq<Event>, taken: seq<Event>, dials: nat, hangups: multiset<string>)

  const NEW_DESK: Desk := Desk("", false, "", [], {}, [], [], 0, multiset{})

  const EVENT_BUFFER: nat := 32

  function Publish(d: Desk, e: Event): Desk {
    d.(events := Offer(d.events, EVENT_BUFFER, e))
  }

  datatype LineKind = Clip | Ring | CallEnd | Ignored

  function LineKindOf(line: string): LineKind {
    var t := TrimSpace(line);
    if HasPrefix(t, "+CLIP:") then Clip
    else if t == "RING" then Ring
    else if EndsCall(t) then CallEnd
    else Ignored
  }

  /** The number between the first two quotes of a +CLIP line. */
  function ClipNumber(line: string): string {
    var rest := TrimSpace(if HasPrefix(line, "+CLIP:") then line[6..] else line);
    var i := IndexAny(rest, {'"'});
    if i < 0 then ""
    else
      var j := IndexAny(rest[i + 1..], {'"'});
      if j < 0 then "" else rest[i + 1..][..j]
  }

  lemma {:induction false} TrimRightKeeps(s: string, k: nat)
    requires k < |s| && !IsSpace(s[k])
    ensures k < |TrimRight(s)|
  {
    if !IsSpace(s[|s| - 1]) {
    } else {
      TrimRightKeeps(s[..|s| - 1], k);
    }
  }

  lemma QuotedInside(t: string, quoted: string, rest: string, number: string)
    requires quoted == "\"" + number + "\"" && t <= quoted + rest && |t| > |number| + 1
    ensures t[0] == '"' && t[1..][..|number|] == number && t[|number| + 1] == '"'
    ensures forall i :: 0 <= i < |number| ==> t[1..][i] == number[i]
  {
    assert quoted <= t;
  }

  lemma NothingToTrim(s: string)
    requires s != "" && !IsSpace(s[0])
    ensures TrimLeft(s) == s
  {
  }

  lemma ClipText(line: string, quoted: string, rest: string)
    requires line == "+CLIP: " + (quoted + rest) && |quoted| > 1 && quoted[0] == '"' && quoted[|quoted| - 1] == '"'
    ensures HasPrefix(line, "+CLIP:")
    ensures quoted <= TrimSpace(line[6..]) <= quoted + rest
  {
    hide TrimRight, TrimLeft;
    assert line[6..] == " " + (quoted + rest);
    TrimLeadingBlank(quoted + rest);
    NothingToTrim(quoted + rest);
    TrimRightKeeps(quoted + rest, |quoted| - 1);
  }

  /** The number in a +CLIP line is found whatever the other fields are. */
  lemma ClipNumberReads(number: string, rest: string)
    requires '"' !in number
    ensures ClipNumber("+CLIP: \"" + number + "\"" + rest) == number
  {
    hide TrimSpace, HasPrefix;
    var line, quoted := "+CLIP: \"" + number + "\"" + rest, "\"" + number + "\"";
    assert line == "+CLIP: " + (quoted + rest);
    ClipText(line, quoted, rest);
    var t := TrimSpace(line[6..]);
    QuotedInside(t, quoted, rest, number);
    IndexAnyIs(t, {'"'}, 0);
    IndexAnyIs(t[1..], {'"'}, |number|);
  }

  // ---------------------------------------------------------------- steps

  /** The incoming event a RING schedules, None when it schedules none: the first
      RING of a call does, under the active call's id or a new one. */
  function RingSchedules(d: Desk, newID: string): Option<string> {
    if d.incomingSent then None else Some(if d.active == "" then newID else d.active)
  }

  function OnRing(d: Desk, newID: string): Desk {
    var event := RingSchedules(d, newID);
    d.(active := if d.active == "" then newID else d.active, incomingSent := true,
       used := if d.active == "" then d.used + {newID} else d.used,
       scheduled := if event.Some? then d.scheduled + [event.value] else d.scheduled)
  }

  function OnCallEnd(d: Desk, line: string): Desk {
    Publish(d.(active := "", incomingSent := false, pendingPeer := ""), Event(Ended, d.active, "", TrimSpace(line)))
  }

  function OnUrc(d: Desk, line: string, newID: string): Desk {
    match LineKindOf(line)
    case Clip => d.(pendingPeer := ClipNumber(TrimSpace(line)))
    case Ring => OnRing(d, newID)
    case CallEnd => OnCallEnd(d, line)
    case Ignored => d
  }

  /** A dial gets as far as its ATD only while no call is active. */
  predicate MayDial(d: Desk) {
    d.active == ""
  }

  /** The end of a dial whose ATD was accepted. */
  function OnDialAccepted(d: Desk, newID: string): Desk
    requires d.dials > 0
  {
    d.(active := newID, used := d.used + {newID}, dials := d.dials - 1)
  }

  /** A hangup gets as far as its ATH only for the active call; "" names any. */
  predicate MayHangUp(d: Desk, callID: string) {
    d.active != "" && (callID == "" || d.active == callID)
  }

  function Finished(d: Desk, callID: string): Desk {
    Publish(d.(active := if d.active == callID then "" else d.active, incomingSent := false, pendingPeer := ""),
            Event(Ended, callID, "", "local_hangup"))
  }

  /** The end of a hangup of callID whose ATH was accepted. */
  function OnHungUp(d: Desk, callID: string): Desk {
    Finished(d.(hangups := d.hangups - multiset{callID}), callID)
  }

  /** Publication of the k-th scheduled incoming event, the number known or the
      wait over. */
  function OnEmit(d: Desk, k: nat): Desk
    requires k < |d.scheduled|
  {
    Publish(d.(scheduled := d.scheduled[..k] + d.scheduled[k + 1..], pendingPeer := ""),
            Event(Incoming, d.scheduled[k], d.pendingPeer, ""))
  }

  /** The consumer takes the oldest event. */
  function OnTake(d: Desk): Desk
    requires d.events != []
  {
    d.(events := d.events[1..], taken := d.taken + [d.events[0]])
  }

  datatype Step =
    | Urc(line: string, newID: string)
    | BeginDial
    | DialAccepted(newID: string)
    | DialRefused
    | BeginHangup(callID: string)
    | HungUp(callID: string)
    | HangupRefused(callID: string)
    | Emit(k: nat)
    | Take

  /** A new id is not empty and was never handed out before. */
  ghost predicate Allowed(d: Desk, step: Step) {
    match step
    case Urc(_, newID) => newID != "" && newID !in d.used
    case BeginDial => MayDial(d)
    case DialAccepted(newID) => d.dials > 0 && newID != "" && newID !in d.used
    case DialRefused => d.dials > 0
    case BeginHangup(callID) => MayHangUp(d, callID)
    case HungUp(callID) => callID in d.hangups
    case HangupRefused(callID) => callID in d.hangups
    case Emit(k) => k < |d.scheduled|
    case Take => d.events != []
  }

  ghost function Do(d: Desk, step: Step): Desk
    requires Allowed(d, step)
  {
    match step
    case Urc(line, newID) => OnUrc(d, line, newID)
    case BeginDial => d.(dials := d.dials + 1)
    case DialAccepted(newID) => OnDialAccepted(d, newID)
    case DialRefused => d.(dials := d.dials - 1)
    case BeginHangup(callID) => d.(hangups := d.hangups + multiset{callID})
    case HungUp(callID) => OnHungUp(d, callID)
    case HangupRefused(callID) => d.(hangups := d.hangups - multiset{callID})
    case Emit(k) => OnEmit(d, k)
    case Take => OnTake(d)
  }

  ghost predicate IsRun(run: seq<Desk>, steps: seq<Step>) {
    && |run| == |steps| + 1
    && forall i :: 0 <= i < |steps| ==> Allowed(run[i], steps[i]) && run[i + 1] == Do(run[i], steps[i])
  }

  predicate IsRing(step: Step) {
    step.Urc? && LineKindOf(step.line).Ring?
  }

  /** A call's end: reported by the modem, or a hangup of our own. */
  predicate Resets(step: Step) {
    step.HungUp? || (step.Urc? && LineKindOf(step.line).CallEnd?)
  }

  // ---------------------------------------------------------------- the invariant

  /** Incoming events name calls an id was handed out for. */
  ghost predicate KnownCalls(events: seq<Event>, used: set<string>) {
    forall i :: 0 <= i < |events| && events[i].kind.Incoming? ==> events[i].callID in used
  }

  ghost predicate Inv(d: Desk) {
    && (d.incomingSent ==> d.active != "")
    && (d.active != "" ==> d.active in d.used)
    && (forall i :: 0 <= i < |d.scheduled| ==> d.scheduled[i] in d.used)
    && KnownCalls(d.taken + d.events, d.used)
    && "" !in d.used
  }

  lemma StepKeeps(d: Desk, step: Step)
    requires Inv(d) && Allowed(d, step)
    ensures Inv(Do(d, step)) && d.used <= Do(d, step).used
  {
    hide LineKindOf, ClipNumber, TrimSpace, KnownCalls;
    EventsStayKnown(d, step);
  }

  lemma EventsStep(d: Desk, step: Step)
    requires Inv(d) && Allowed(d, step)
    ensures var next := Do(d, step);
            && d.used <= next.used
            && (step.Take? ==> d.events != [] && next.events == d.events[1..] && next.taken == d.taken + [d.events[0]])
            && (!step.Take? ==> next.taken == d.taken)
            && (!step.Take? && next.events != d.events ==>
                  && |next.events| == |d.events| + 1 && next.events[..|d.events|] == d.events
                  && (next.events[|d.events|].kind.Incoming? ==> next.events[|d.events|].callID in next.used))
  {
    hide LineKindOf, ClipNumber, TrimSpace, KnownCalls;
  }

  lemma EventsStayKnown(d: Desk, step: Step)
    requires Inv(d) && Allowed(d, step)
    ensures var next := Do(d, step); KnownCalls(next.taken + next.events, next.used)
  {
    hide Do, Allowed, KnownCalls;
    EventsStep(d, step);
    var next := Do(d, step);
    var all := d.taken + d.events;
    if step.Take? {
      assert next.taken + next.events == all;
    } else if next.events != d.events {
      var e := next.events[|d.events|];
      assert next.taken + next.events == all + [e];
      KnownWith(all, e, next.used);
    }
    KnownWithMore(all, d.used, next.used);
  }

  lemma KnownWith(events: seq<Event>, e: Event, used: set<string>)
    requires e.kind.Incoming? ==> e.callID in used
    ensures KnownCalls(events, used) ==> KnownCalls(events + [e], used)
  {
  }

  lemma KnownWithMore(events: seq<Event>, used: set<string>, more: set<string>)
    requires used <= more && KnownCalls(events, used)
    ensures KnownCalls(events, more)
  {
  }

  /** In every run the flag that an incoming event was sent for implies an active
      call, and every incoming event published, taken by the consumer or not yet,
      carries an id that was handed out for a call. */
  lemma IncomingSentMeansActive(run: seq<Desk>, steps: seq<Step>)
    requires IsRun(run, steps) && run[0] == NEW_DESK
    ensures forall i :: 0 <= i < |run| ==> Inv(run[i])
  {
    hide Do, Allowed, Inv;
    NewDeskHolds();
    forall i | 0 <= i < |run|
      ensures Inv(run[i])
    {
      InvStays(run[..i + 1], steps[..i]);
    }
  }

  lemma NewDeskHolds()
    ensures Inv(NEW_DESK)
  {
  }

  lemma {:induction false} InvStays(run: seq<Desk>, steps: seq<Step>)
    requires IsRun(run, steps) && Inv(run[0])
    ensures Inv(run[|steps|])
  {
    hide Do, Allowed, Inv;
    if steps == [] {
      assert run[|steps|] == run[0];
    } else {
      var n := |steps| - 1;
      InvStays(run[..n + 1], steps[..n]);
      StepKeeps(run[n], steps[n]);
    }
  }

  // ---------------------------------------------------------------- one incoming event per call

  /** The incoming events a run schedules. */
  ghost function Schedules(run: seq<Desk>, steps: seq<Step>): seq<string>
    requires |run| == |steps| + 1
  {
    if steps == [] then []
    else
      var n := |steps| - 1;
      var s := if IsRing(steps[n]) then RingSchedules(run[n], steps[n].newID) else None;
      Schedules(run[..n + 1], steps[..n]) + if s.Some? then [s.value] else []
  }

  ghost predicate RingsIn(steps: seq<Step>) {
    exists i :: 0 <= i < |steps| && IsRing(steps[i])
  }

  /** What a step that ends no call does to the flag. */
  lemma FlagStep(d: Desk, step: Step)
    requires Allowed(d, step) && !Resets(step)
    ensures Do(d, step).incomingSent == (d.incomingSent || IsRing(step))
    ensures IsRing(step) ==> (RingSchedules(d, step.newID).Some? <==> !d.incomingSent)
  {
    hide LineKindOf, ClipNumber, TrimSpace;
  }

  lemma RingsInStep(steps: seq<Step>)
    requires steps != []
    ensures RingsIn(steps) <==> RingsIn(steps[..|steps| - 1]) || IsRing(steps[|steps| - 1])
  {
    hide IsRing;
    var n := |steps| - 1;
    if RingsIn(steps[..n]) {
      var i :| 0 <= i < n && IsRing(steps[..n][i]);
      assert IsRing(steps[i]);
    }
    if RingsIn(steps) && !IsRing(steps[n]) {
      var i :| 0 <= i < |steps| && IsRing(steps[i]);
      assert IsRing(steps[..n][i]);
    }
  }

  /** Between two resets exactly one incoming event is scheduled if the modem rang
      at all, however often it did, and none if one was outstanding already. */
  lemma {:induction false} OneIncomingPerCall(run: seq<Desk>, steps: seq<Step>)
    requires IsRun(run, steps) && forall i :: 0 <= i < |steps| ==> !Resets(steps[i])
    ensures |Schedules(run, steps)| == if RingsIn(steps) && !run[0].incomingSent then 1 else 0
    ensures run[|steps|].incomingSent == (run[0].incomingSent || RingsIn(steps))
  {
    hide LineKindOf, Do, Allowed, RingSchedules, Resets, RingsIn;
    if steps == [] {
      NoRings(steps);
    } else {
      var n := |steps| - 1;
      OneIncomingPerCall(run[..n + 1], steps[..n]);
      FlagStep(run[n], steps[n]);
      RingsInStep(steps);
    }
  }

  lemma NoRings(steps: seq<Step>)
    requires steps == []
    ensures !RingsIn(steps)
  {
  }

  /** Nothing but a dial makes a call active without a RING. */
  lemma {:induction false} QuietStaysQuiet(run: seq<Desk>, steps: seq<Step>)
    requires IsRun(run, steps) && run[0].active == "" && !run[0].incomingSent
    requires forall i :: 0 <= i < |steps| ==> !IsRing(steps[i]) && !steps[i].DialAccepted?
    ensures run[|steps|].active == "" && !run[|steps|].incomingSent
  {
    hide LineKindOf, ClipNumber, TrimSpace;
    if steps == [] {
    } else {
      var n := |steps| - 1;
      QuietStaysQuiet(run[..n + 1], steps[..n]);
    }
  }

  lemma {:induction false} UsedGrows(run: seq<Desk>, steps: seq<Step>, i: nat)
    requires IsRun(run, steps) && i < |run|
    ensures run[i].used <= run[|steps|].used
  {
    hide LineKindOf, ClipNumber, TrimSpace;
    if i == |steps| {
    } else {
      var n := |steps| - 1;
      UsedGrows(run[..n + 1], steps[..n], i);
    }
  }

  /** The last step is a RING that schedules an incoming event. */
  ghost predicate LastIsAnnounced(run: seq<Desk>, steps: seq<Step>)
    requires |run| == |steps| + 1 > 1
  {
    var n := |steps| - 1;
    && steps[n].Urc? && RingSchedules(run[n], steps[n].newID).Some?
    && run[n + 1].scheduled == run[n].scheduled + [RingSchedules(run[n], steps[n].newID).value]
  }

  /** It schedules it under its own new id, which no earlier state knew. */
  ghost predicate LastOpensACall(run: seq<Desk>, steps: seq<Step>)
    requires |run| == |steps| + 1 > 1
  {
    var n := |steps| - 1;
    && steps[n].Urc? && RingSchedules(run[n], steps[n].newID) == Some(steps[n].newID)
    && run[n + 1].active == steps[n].newID
    && forall i :: 0 <= i <= n ==> steps[n].newID !in run[i].used
  }

  /** The end the run starts with leaves no call active, and no dial is accepted
      before the last step. */
  ghost predicate NothingInTheWay(run: seq<Desk>, steps: seq<Step>)
    requires |run| == |steps| + 1 > 1
  {
    && (steps[0].HungUp? ==> run[0].active in {"", steps[0].callID})
    && forall i :: 0 < i < |steps| - 1 ==> !steps[i].DialAccepted?
  }

  /** A call once active stays so until a reset. */
  lemma {:induction false} ActiveStays(run: seq<Desk>, steps: seq<Step>)
    requires IsRun(run, steps) && run[0].active != "" && forall i :: 0 <= i < |steps| ==> !Resets(steps[i])
    ensures run[|steps|].active != ""
  {
    hide LineKindOf, ClipNumber, TrimSpace;
    if steps == [] {
      assert run[|steps|] == run[0];
    } else {
      var n := |steps| - 1;
      ActiveStays(run[..n + 1], steps[..n]);
    }
  }

  lemma OtherStaysActive(d: Desk, step: Step)
    requires Allowed(d, step)
    requires step.DialAccepted? || (step.HungUp? && d.active !in {"", step.callID})
    ensures Do(d, step).active != ""
  {
  }

  /** A call in the way is still there when the RING comes. */
  lemma SomethingInTheWay(run: seq<Desk>, steps: seq<Step>)
    requires IsRun(run, steps) && |steps| >= 2 && Inv(run[0]) && Resets(steps[0])
    requires forall i :: 0 < i < |steps| - 1 ==> !Resets(steps[i])
    requires !NothingInTheWay(run, steps)
    ensures run[|steps| - 1].active != ""
  {
    hide Do, Resets, Inv;
    var n := |steps| - 1;
    if steps[0].HungUp? && run[0].active !in {"", steps[0].callID} {
      OtherStaysActive(run[0], steps[0]);
      ActiveStays(run[1..n + 1], steps[1..n]);
    } else {
      var i :| 0 < i < n && steps[i].DialAccepted?;
      OtherStaysActive(run[i], steps[i]);
      ActiveStays(run[i + 1..n + 1], steps[i + 1..n]);
    }
  }

  /** The first RING after a termination is never swallowed: it schedules an
      incoming event. It opens a call under an id no earlier state knew if and only
      if the termination left no call active and no dial was accepted in between. */
  lemma FirstRingOpensACall(run: seq<Desk>, steps: seq<Step>)
    requires IsRun(run, steps) && |steps| >= 2 && Resets(steps[0]) && IsRing(steps[|steps| - 1])
    requires forall i :: 0 < i < |steps| - 1 ==> !IsRing(steps[i]) && !Resets(steps[i])
    ensures LastIsAnnounced(run, steps)
    ensures Inv(run[0]) ==> (LastOpensACall(run, steps) <==> NothingInTheWay(run, steps))
  {
    hide LineKindOf, ClipNumber, TrimSpace, Inv;
    var n := |steps| - 1;
    var midRun, midSteps := run[1..n + 1], steps[1..n];
    assert !run[1].incomingSent;
    OneIncomingPerCall(midRun, midSteps);
    if NothingInTheWay(run, steps) {
      QuietStaysQuiet(midRun, midSteps);
      forall i | 0 <= i <= n
        ensures steps[n].newID !in run[i].used
      {
        UsedGrows(run[..n + 1], steps[..n], i);
      }
    } else if Inv(run[0]) {
      SomethingInTheWay(run, steps);
      InvStays(run[..n + 1], steps[..n]);
      ActiveIsUsed(run[n]);
    }
  }

  lemma ActiveIsUsed(d: Desk)
    requires Inv(d) && d.active != ""
    ensures d.active in d.used
  {
  }

  // ---------------------------------------------------------------- events that come late

  /** The step is an end of the call that is, or was, known as callID. */
  ghost predicate EndsThat(d: Desk, step: Step, callID: string) {
    (step.HungUp? && step.callID == callID) || (step.Urc? && LineKindOf(step.line).CallEnd? && d.active == callID)
  }

  ghost predicate EndedSince(run: seq<Desk>, steps: seq<Step>, i: nat, n: nat, callID: string)
    requires i <= n <= |steps| < |run|
  {
    exists j :: i <= j < n && EndsThat(run[j], steps[j], callID)
  }

  ghost predicate DialledSince(steps: seq<Step>, i: nat, n: nat)
    requires i <= n <= |steps|
  {
    exists j :: i <= j < n && steps[j].DialAccepted?
  }

  lemma ActiveStep(d: Desk, step: Step, callID: string)
    requires Inv(d) && Allowed(d, step) && callID != "" && callID in d.used
    ensures Do(d, step).active == callID <==> d.active == callID && !EndsThat(d, step, callID) && !step.DialAccepted?
    ensures callID in Do(d, step).used
  {
    hide LineKindOf, ClipNumber, TrimSpace;
  }

  /** A call stays the active one exactly until it ends or an accepted dial takes its
      place. */
  lemma {:induction false} StaysActive(run: seq<Desk>, steps: seq<Step>, i: nat, n: nat)
    requires IsRun(run, steps) && Inv(run[0]) && i <= n < |run| && run[i].active != ""
    ensures run[i].active in run[n].used
    ensures run[n].active == run[i].active <==> !EndedSince(run, steps, i, n, run[i].active) && !DialledSince(steps, i, n)
    decreases n - i
  {
    hide Do, Allowed, Inv, EndsThat;
    InvStays(run[..i + 1], steps[..i]);
    if i == n {
      ActiveIsUsed(run[i]);
    } else {
      StaysActive(run, steps, i, n - 1);
      InvStays(run[..n], steps[..n - 1]);
      UsedIsNamed(run[n - 1]);
      assert run[n] == Do(run[n - 1], steps[n - 1]) && Allowed(run[n - 1], steps[n - 1]);
      ActiveStep(run[n - 1], steps[n - 1], run[i].active);
      assert EndedSince(run, steps, i, n, run[i].active) <==>
             EndedSince(run, steps, i, n - 1, run[i].active) || EndsThat(run[n - 1], steps[n - 1], run[i].active);
      assert DialledSince(steps, i, n) <==> DialledSince(steps, i, n - 1) || steps[n - 1].DialAccepted?;
    }
  }

  lemma UsedIsNamed(d: Desk)
    requires Inv(d)
    ensures "" !in d.used
  {
  }

  /** The step is a RING that schedules the incoming event of this call. */
  ghost predicate RingsFor(d: Desk, step: Step, callID: string) {
    IsRing(step) && RingSchedules(d, step.newID) == Some(callID)
  }

  /** The step publishes an incoming event of this call. */
  ghost predicate EmitsFor(d: Desk, step: Step, callID: string) {
    step.Emit? && step.k < |d.scheduled| && d.scheduled[step.k] == callID
  }

  /** The incoming event a RING at step i schedules comes out behind the end of its
      own call exactly when that call has ended by then; if no dial was accepted in
      the meantime, that is exactly when it is no longer the active one. */
  lemma IncomingBehindItsEnd(run: seq<Desk>, steps: seq<Step>, i: nat, n: nat, callID: string)
    requires IsRun(run, steps) && Inv(run[0]) && i < n < |steps|
    requires RingsFor(run[i], steps[i], callID) && EmitsFor(run[n], steps[n], callID)
    ensures run[n + 1].events == Offer(run[n].events, EVENT_BUFFER, Event(Incoming, callID, run[n].pendingPeer, ""))
    ensures run[n].active == callID <==> !EndedSince(run, steps, i + 1, n, callID) && !DialledSince(steps, i + 1, n)
    ensures !DialledSince(steps, i + 1, n) ==> (EndedSince(run, steps, i + 1, n, callID) <==> run[n].active != callID)
  {
    hide LineKindOf, ClipNumber, TrimSpace, Inv, EndsThat, EndedSince, DialledSince;
    RingMakesActive(run[i], steps[i]);
    StaysActive(run, steps, i + 1, n);
  }

  lemma RingMakesActive(d: Desk, step: Step)
    requires Allowed(d, step) && IsRing(step) && RingSchedules(d, step.newID).Some?
    ensures Do(d, step).active == RingSchedules(d, step.newID).value != ""
  {
    hide LineKindOf, ClipNumber, TrimSpace;
  }

  // ---------------------------------------------------------------- what reaches the consumer

  /** A text that tells of the end of a call. */
  ghost predicate TellsEnd(text: string) {
    && !("+CLIP:" <= text)
    && exists a: string, b: string :: text in {a + "NO CARRIER" + b, a + "BUSY" + b, a + "NO ANSWER" + b}
  }

  /** What a line is, from its text between the blanks. */
  lemma LineKindIff(line: string)
    ensures var t := TrimSpace(line);
            && (LineKindOf(line).Clip? <==> "+CLIP:" <= t)
            && (LineKindOf(line).Ring? <==> t == "RING")
            && (LineKindOf(line).CallEnd? <==> TellsEnd(t))
  {
    hide TrimSpace, Contains;
    var t := TrimSpace(line);
    ContainsIff(t, "NO CARRIER");
    ContainsIff(t, "BUSY");
    ContainsIff(t, "NO ANSWER");
    if EndsCall(t) {
      EndsCallText(t);
    }
    if a: string, b: string :| t in {a + "NO CARRIER" + b, a + "BUSY" + b, a + "NO ANSWER" + b} {
      assert t == a + "NO CARRIER" + b || t == a + "BUSY" + b || t == a + "NO ANSWER" + b;
      RingIsNoEnd(a, b);
    }
  }

  lemma RingIsNoEnd(a: string, b: string)
    ensures "RING" != a + "NO CARRIER" + b && "RING" != a + "BUSY" + b && "RING" != a + "NO ANSWER" + b
  {
    assert |a + "BUSY" + b| == 4 ==> (a + "BUSY" + b)[0] == 'B';
    assert "RING"[0] == 'R';
  }

  /** What step i owes the consumer: the end of the active call with the modem's own
      words, the end of the call a hangup was for, an incoming event with its number. */
  ghost function Owed(run: seq<Desk>, steps: seq<Step>, i: nat): seq<Event>
    requires i < |steps| && |run| == |steps| + 1 && Allowed(run[i], steps[i])
  {
    match steps[i]
    case Urc(line, _) => if TellsEnd(TrimSpace(line)) then [Event(Ended, run[i].active, "", TrimSpace(line))] else []
    case HungUp(callID) => [Event(Ended, callID, "", "local_hangup")]
    case Emit(k) => [Event(Incoming, run[i].scheduled[k], run[i].pendingPeer, "")]
    case _ => []
  }

  /** What the first n steps owe, without what found 32 events waiting. */
  ghost function Delivered(run: seq<Desk>, steps: seq<Step>, n: nat): seq<Event>
    requires IsRun(run, steps) && n <= |steps|
  {
    if n == 0 then run[0].taken + run[0].events
    else Delivered(run, steps, n - 1) + if |run[n - 1].events| < 32 then Owed(run, steps, n - 1) else []
  }

  lemma OwedStep(run: seq<Desk>, steps: seq<Step>, i: nat)
    requires IsRun(run, steps) && i < |steps|
    ensures var d := run[i]; var r := run[i + 1];
            r.taken + r.events == d.taken + d.events + if |d.events| < 32 then Owed(run, steps, i) else []
  {
    hide LineKindOf, TellsEnd, TrimSpace, ClipNumber, Publish, OnRing;
    var d := run[i];
    match steps[i] {
      case Urc(line, newID) =>
        LineKindIff(line);
        RingPublishesNothing(d, newID);
        PublishKeeps(d.(active := "", incomingSent := false, pendingPeer := ""), Event(Ended, d.active, "", TrimSpace(line)));
      case HungUp(callID) =>
        PublishKeeps(d.(hangups := d.hangups - multiset{callID}, active := if d.active == callID then "" else d.active,
                        incomingSent := false, pendingPeer := ""), Event(Ended, callID, "", "local_hangup"));
      case Emit(k) =>
        PublishKeeps(d.(scheduled := d.scheduled[..k] + d.scheduled[k + 1..], pendingPeer := ""),
                     Event(Incoming, d.scheduled[k], d.pendingPeer, ""));
      case Take => assert d.taken + [d.events[0]] + d.events[1..] == d.taken + d.events;
      case _ =>
    }
  }

  lemma PublishKeeps(d: Desk, e: Event)
    ensures Publish(d, e).taken + Publish(d, e).events == d.taken + d.events + if |d.events| < 32 then [e] else []
  {
  }

  lemma RingPublishesNothing(d: Desk, newID: string)
    ensures OnRing(d, newID).taken == d.taken && OnRing(d, newID).events == d.events
  {
  }

  /** In every run the consumer gets exactly what the steps owe it, in their order,
      each once; only what finds 32 events waiting is dropped. */
  lemma {:induction false} ConsumerGetsWhatIsOwed(run: seq<Desk>, steps: seq<Step>, n: nat)
    requires IsRun(run, steps) && n <= |steps|
    ensures run[n].taken + run[n].events == Delivered(run, steps, n)
  {
    hide Do, Allowed, Owed;
    if n > 0 {
      ConsumerGetsWhatIsOwed(run, steps, n - 1);
      OwedStep(run, steps, n - 1);
    }
  }

  /** The step takes or replaces the number that is kept for the incoming event. */
  ghost predicate Renumbers(step: Step) {
    step.Emit? || step.HungUp? || (step.Urc? && ("+CLIP:" <= TrimSpace(step.line) || TellsEnd(TrimSpace(step.line))))
  }

  lemma NumberStep(d: Desk, step: Step)
    requires Allowed(d, step)
    ensures !Renumbers(step) ==> Do(d, step).pendingPeer == d.pendingPeer
    ensures Renumbers(step) && !(step.Urc? && "+CLIP:" <= TrimSpace(step.line)) ==> Do(d, step).pendingPeer == ""
    ensures step.Urc? && "+CLIP:" <= TrimSpace(step.line) ==> Do(d, step).pendingPeer == ClipNumber(TrimSpace(step.line))
  {
    hide TellsEnd, TrimSpace, LineKindOf, ClipNumber;
    if step.Urc? {
      LineKindIff(step.line);
    }
  }

  lemma {:induction false} NumberStays(run: seq<Desk>, steps: seq<Step>, i: nat, n: nat)
    requires IsRun(run, steps) && i <= n < |run| && forall j :: i <= j < n ==> !Renumbers(steps[j])
    ensures run[n].pendingPeer == run[i].pendingPeer
    decreases n - i
  {
    hide Do, Allowed, Renumbers;
    if i < n {
      NumberStays(run, steps, i, n - 1);
      NumberStep(run[n - 1], steps[n - 1]);
    }
  }

  lemma ClipLineReads(line: string, number: string, rest: string)
    requires TrimSpace(line) == "+CLIP: \"" + number + "\"" + rest && '"' !in number
    ensures "+CLIP:" <= TrimSpace(line) && ClipNumber(TrimSpace(line)) == number
  {
    hide TrimSpace, ClipNumber;
    ClipNumberReads(number, rest);
    assert "+CLIP: \"" + number + "\"" + rest == "+CLIP:" + (" \"" + number + "\"" + rest);
  }

  /** An incoming event carries the number of the latest +CLIP line, provided no end
      and no other incoming event came in between; it carries none if the latest of
      them was no +CLIP line. */
  lemma IncomingCarriesNumber(run: seq<Desk>, steps: seq<Step>, i: nat, n: nat, number: string, rest: string)
    requires IsRun(run, steps) && i < n < |steps| && steps[n].Emit? && Renumbers(steps[i])
    requires forall j :: i < j < n ==> !Renumbers(steps[j])
    requires '"' !in number
    ensures var clip := steps[i].Urc? && "+CLIP:" <= TrimSpace(steps[i].line);
            && (!clip ==> Owed(run, steps, n) == [Event(Incoming, run[n].scheduled[steps[n].k], "", "")])
            && (clip && TrimSpace(steps[i].line) == "+CLIP: \"" + number + "\"" + rest ==>
                  Owed(run, steps, n) == [Event(Incoming, run[n].scheduled[steps[n].k], number, "")])
  {
    hide Do, TellsEnd, TrimSpace, ClipNumber, Renumbers, LineKindOf;
    NumberStep(run[i], steps[i]);
    NumberStays(run, steps, i + 1, n);
    if steps[i].Urc? && TrimSpace(steps[i].line) == "+CLIP: \"" + number + "\"" + rest {
      ClipLineReads(steps[i].line, number, rest);
    }
  }

  // ---------------------------------------------------------------- what may begin

  /** An accepted dial began while no call was active, a finished hangup while the
      call it names was, or any call when it names none; and nothing else is asked. */
  ghost predicate BeganRightly(run: seq<Desk>, steps: seq<Step>, n: nat)
    requires n < |steps| && |run| == |steps| + 1
  {
    && (steps[n].DialAccepted? ==> exists i :: 0 <= i < n && steps[i].BeginDial? && run[i].active == "")
    && (steps[n].HungUp? ==> exists i :: 0 <= i < n && steps[i] == BeginHangup(steps[n].callID) && run[i].active != ""
                                         && steps[n].callID in {"", run[i].active})
  }

  ghost predicate Begun(run: seq<Desk>, steps: seq<Step>, n: nat)
    requires n < |run| == |steps| + 1
  {
    && (run[n].dials > 0 ==> exists i :: 0 <= i < n && steps[i].BeginDial? && run[i].active == "")
    && (forall c :: c in run[n].hangups ==>
          exists i :: 0 <= i < n && steps[i] == BeginHangup(c) && run[i].active != "" && c in {"", run[i].active})
  }

  lemma UnderWayStep(d: Desk, step: Step)
    requires Allowed(d, step)
    ensures Do(d, step).dials > 0 ==> d.dials > 0 || (step.BeginDial? && d.active == "")
    ensures forall c :: c in Do(d, step).hangups ==>
              c in d.hangups || (step == BeginHangup(c) && d.active != "" && c in {"", d.active})
  {
    hide TrimSpace, LineKindOf, ClipNumber;
  }

  lemma {:induction false} UnderWayBegan(run: seq<Desk>, steps: seq<Step>, n: nat)
    requires IsRun(run, steps) && run[0] == NEW_DESK && n < |run|
    ensures Begun(run, steps, n)
  {
    hide Do, Allowed;
    if n > 0 {
      UnderWayBegan(run, steps, n - 1);
      UnderWayStep(run[n - 1], steps[n - 1]);
    }
  }

  lemma DialsAndHangupsBeganRightly(run: seq<Desk>, steps: seq<Step>, n: nat)
    requires IsRun(run, steps) && run[0] == NEW_DESK && n < |steps|
    ensures BeganRightly(run, steps, n)
    ensures run[n].active == "" ==> Allowed(run[n], BeginDial)
    ensures forall c :: run[n].active != "" && c in {"", run[n].active} ==> Allowed(run[n], BeginHangup(c))
  {
    hide Do, TrimSpace, LineKindOf, ClipNumber;
    UnderWayBegan(run, steps, n);
  }

  // ---------------------------------------------------------------- runs that show it

  lemma RingIsRing()
    ensures LineKindOf("RING").Ring?
  {
    hide EndsCall, TrimSpace;
  }

  lemma NoCarrierIsEnd()
    ensures LineKindOf("NO CARRIER").CallEnd? && TrimSpace("NO CARRIER") == "NO CARRIER"
  {
    hide TrimSpace;
    assert At("NO CARRIER", "NO CARRIER", 0);
  }

  /** A call that rings in right after a dial was accepted is announced under the
      dialled call's id. */
  lemma RingUnderADialledCall() returns (run: seq<Desk>, steps: seq<Step>)
    ensures steps == [Step.Urc("NO CARRIER", "in_0"), BeginDial, DialAccepted("call_1"), Step.Urc("RING", "in_1")]
    ensures Resets(steps[0]) && IsRing(steps[3])
    ensures IsRun(run, steps) && run[0] == NEW_DESK && run[4].scheduled == ["call_1"]
  {
    hide LineKindOf, TrimSpace;
    RingIsRing();
    NoCarrierIsEnd();
    steps := [Step.Urc("NO CARRIER", "in_0"), BeginDial, DialAccepted("call_1"), Step.Urc("RING", "in_1")];
    var d1 := Do(NEW_DESK, steps[0]);
    var d2 := Do(d1, steps[1]);
    var d3 := Do(d2, steps[2]);
    run := [NEW_DESK, d1, d2, d3, Do(d3, steps[3])];
  }

  /** The far end hangs up a dialled call while our own hangup of it waits for the
      modem; a new call rings; the hangup then finishes and makes the next RING
      announce that call a second time. */
  lemma LateHangupAnnouncesTwice() returns (run: seq<Desk>, steps: seq<Step>)
    ensures steps == [BeginDial, DialAccepted("call_0"), BeginHangup("call_0"), Step.Urc("NO CARRIER", "in_0"), Step.Urc("RING", "in_1"),
                      HungUp("call_0"), Step.Urc("RING", "in_2")]
    ensures IsRing(steps[4]) && IsRing(steps[6])
    ensures IsRun(run, steps) && run[0] == NEW_DESK && run[7].scheduled == ["in_1", "in_1"]
  {
    hide LineKindOf, TrimSpace;
    RingIsRing();
    NoCarrierIsEnd();
    steps := [BeginDial, DialAccepted("call_0"), BeginHangup("call_0"), Step.Urc("NO CARRIER", "in_0"), Step.Urc("RING", "in_1"),
              HungUp("call_0"), Step.Urc("RING", "in_2")];
    var d1 := Do(NEW_DESK, steps[0]);
    var d2 := Do(d1, steps[1]);
    var d3 := Do(d2, steps[2]);
    var d4 := Do(d3, steps[3]);
    var d5 := Do(d4, steps[4]);
    var d6 := Do(d5, steps[5]);
    run := [NEW_DESK, d1, d2, d3, d4, d5, d6, Do(d6, steps[6])];
  }

  /** A caller who gives up while the first RING still waits for the number: the end
      is published, and then the incoming event of the call that is over. */
  lemma EndOvertakesIncoming() returns (run: seq<Desk>, steps: seq<Step>)
    ensures steps == [Step.Urc("RING", "in_1"), Step.Urc("NO CARRIER", "in_2"), Emit(0)]
    ensures IsRun(run, steps) && run[0] == NEW_DESK
    ensures run[3].active == "" && run[3].events == [Event(Ended, "in_1", "", "NO CARRIER"), Event(Incoming, "in_1", "", "")]
  {
    hide LineKindOf, TrimSpace;
    RingIsRing();
    NoCarrierIsEnd();
    steps := [Step.Urc("RING", "in_1"), Step.Urc("NO CARRIER", "in_2"), Emit(0)];
    var d1 := Do(NEW_DESK, steps[0]);
    var d2 := Do(d1, steps[1]);
    run := [NEW_DESK, d1, d2, Do(d2, steps[2])];
  }

  // ---------------------------------------------------------------- the object

  class CallAdapter {
    var active: string
    var incomingSent: bool
    var pendingPeer: string
    var scheduled: seq<string>
    var events: seq<Event>
    ghost var taken: seq<Event>
    ghost var used: set<string>
    ghost var dials: nat
    ghost var hangups: multiset<string>

    constructor ()
      ensures View() == NEW_DESK
    {
      active, incomingSent, pendingPeer := "", false, "";
      scheduled, events, taken, used := [], [], [], {};
      dials, hangups := 0, multiset{};
    }

    ghost function View(): Desk
      reads this
    {
      Desk(active, incomingSent, pendingPeer, scheduled, used, events, taken, dials, hangups)
    }

    method Send(e: Event)
      modifies this`events
      ensures View() == Publish(old(View()), e)
    {
      if |events| < EVENT_BUFFER {
        events := events + [e];
      }
    }

    /** One line from the modem, newID being the id drawn if a call is opened. */
    method HandleURC(line: string, newID: string)
      modifies this
      ensures View() == OnUrc(old(View()), line, newID)
    {
      hide Contains, TrimSpace, ClipNumber;
      var text := TrimSpace(line);
      var callID := active;
      if HasPrefix(text, "+CLIP:") {
        pendingPeer := ClipNumber(text);
      } else if text == "RING" {
        if callID == "" {
          callID := newID;
          active := callID;
          used := used + {newID};
        }
        var already := incomingSent;
        incomingSent := true;
        if !already {
          scheduled := scheduled + [callID];
        }
      } else if EndsCall(text) {
        if active == callID && callID != "" {
          active := "";
        }
        incomingSent := false;
        pendingPeer := "";
        Send(Event(Ended, callID, "", text));
      }
    }

    /** The check a dial starts with; the call is only marked active once ATD is
        accepted. */
    method StartDial() returns (busy: bool)
      modifies this`dials
      ensures busy == !MayDial(old(View()))
      ensures View() == if busy then old(View()) else old(View()).(dials := old(View()).dials + 1)
    {
      busy := active != "";
      if !busy {
        dials := dials + 1;
      }
    }

    method DialDone(accepted: bool, newID: string)
      requires dials > 0
      modifies this
      ensures View() == if accepted then OnDialAccepted(old(View()), newID) else old(View()).(dials := old(View()).dials - 1)
    {
      if accepted {
        active := newID;
        used := used + {newID};
      }
      dials := dials - 1;
    }

    /** The check a hangup starts with. */
    method StartHangup(callID: string) returns (mismatch: bool)
      modifies this`hangups
      ensures mismatch == !MayHangUp(old(View()), callID)
      ensures View() == if mismatch then old(View()) else old(View()).(hangups := old(View()).hangups + multiset{callID})
    {
      mismatch := active == "" || (callID != "" && active != callID);
      if !mismatch {
        hangups := hangups + multiset{callID};
      }
    }

    /** The end of a hangup, ATH accepted or not. */
    method HangupDone(accepted: bool, callID: string)
      modifies this
      ensures View() == if accepted then OnHungUp(old(View()), callID)
                        else old(View()).(hangups := old(View()).hangups - multiset{callID})
    {
      hangups := hangups - multiset{callID};
      if accepted {
        FinishActive(callID);
      }
    }

    method FinishActive(callID: string)
      modifies this
      ensures View() == Finished(old(View()), callID)
    {
      if active == callID {
        active := "";
      }
      incomingSent := false;
      pendingPeer := "";
      Send(Event(Ended, callID, "", "local_hangup"));
    }

    /** A receive on the event channel. */
    method NextEvent() returns (e: Event)
      requires events != []
      modifies this
      ensures View() == OnTake(old(View())) && e == old(events)[0]
    {
      e := events[0];
      events := events[1..];
      taken := taken + [e];
    }

    method EmitIncoming(k: nat)
      requires k < |scheduled|
      modifies this
      ensures View() == OnEmit(old(View()), k)
    {
      var peer, callID := pendingPeer, scheduled[k];
      pendingPeer := "";
      scheduled := scheduled[..k] + scheduled[k + 1..];
      Send(Event(Incoming, callID, peer, ""));
    }
  }
}
