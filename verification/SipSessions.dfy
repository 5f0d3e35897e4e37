/** The life of call sessions under any number of handler goroutines: who owns a
    Call-ID, who dials, who acknowledges and answers, who starts the bridge. */
module SipSessions {
  import opened Text
  import opened SipDialogs

  /** A session: the modem's id for its leg once that is recorded, what it holds, and
      how often each thing that must not repeat was done for it. */
  datatype Session = Session(callID: string, direction: Direction, state: CallState, modemID: Option<string>,
                             cancelled: bool, bridging: bool, mediaOpen: bool,
                             dials: nat, acks: nat, answers: nat, bridges: nat, hangups: nat)

  function NewSession(callID: string, direction: Direction): Session {
    Session(callID, direction, Init, None, false, false, true, 0, 0, 0, 0, 0)
  }

  /** Where a handler goroutine is; the number names its session. */
  datatype PC =
    | Idle
    | Made(sid: nat)            // session made, Call-ID not claimed yet
    | WonDial(sid: nat)         // claimed by an INVITE handler
    | InDial(sid: nat)          // route, ATD
    | Awaiting(sid: nat)        // waits for the far end to pick up
    | GotOk(sid: nat)           // a 200 OK found its session
    | MustAck(sid: nat)
    | MustAnswer(sid: nat)
    | BridgeReady(sid: nat)
    | AtBridge(sid: nat)       // the bridge has started
    | InHangup(sid: nat)
    | Stopped(sid: nat)        // context cancelled, bridge stopped
    | Released(sid: nat)       // modem told to hang up, media closed

  /** A delete names the session whose handler issued it. */
  datatype MapEvent = Won(callID: string, sid: nat) | Deleted(callID: string, sid: nat)

  datatype Server = Server(sessions: map<string, nat>, table: seq<Session>, threads: map<nat, PC>, log: seq<MapEvent>) {
    function Pc(t: nat): PC {
      if t in threads then threads[t] else Idle
    }

    function Go(t: nat, pc: PC): Server {
      this.(threads := threads[t := pc])
    }

    function With(sid: nat, s: Session): Server
      requires sid < |table|
    {
      this.(table := table[sid := s])
    }
  }

  const STARTED: Server := Server(map[], [], map[], [])

  // ---------------------------------------------------------------- the shared map

  function Claim(sessions: map<string, nat>, callID: string, sid: nat): (map<string, nat>, bool) {
    if callID in sessions then (sessions, false) else (sessions[callID := sid], true)
  }

  class SessionMap {
    var sessions: map<string, nat>

    constructor ()
      ensures sessions == map[]
    {
      sessions := map[];
    }

    /** One atomic decision: the first caller for a Call-ID wins. */
    method ClaimSession(callID: string, sid: nat) returns (won: bool)
      modifies this
      ensures (sessions, won) == Claim(old(sessions), callID, sid)
    {
      won := callID !in sessions;
      if won {
        sessions := sessions[callID := sid];
      }
    }

    method Delete(callID: string)
      modifies this
      ensures sessions == old(sessions) - {callID}
    {
      sessions := sessions - {callID};
    }
  }

  // ---------------------------------------------------------------- one session

  function Dialled(x: Session): Session {
    x.(state := Dialing, dials := x.dials + 1)
  }

  function PickupClaimed(x: Session): Session {
    x.(state := Answering)
  }

  function Acknowledged(x: Session): Session {
    x.(acks := x.acks + 1)
  }

  function AnswerTried(x: Session): Session {
    x.(answers := x.answers + 1)
  }

  /** Which cellular leg the session owns. */
  function LegRecorded(x: Session, id: string): Session {
    x.(modemID := Some(id))
  }

  function BridgeTried(x: Session, started: bool): Session {
    x.(bridges := x.bridges + 1, bridging := x.bridging || started)
  }

  function Activated(x: Session): Session {
    x.(state := Active)
  }

  function CallStopped(x: Session): Session {
    x.(cancelled := true, bridging := false)
  }

  function LineReleased(x: Session): Session {
    x.(hangups := x.hangups + 1, mediaOpen := false)
  }

  /** What a lost claim and a failed dial leave behind. */
  function MediaClosed(x: Session): Session {
    x.(mediaOpen := false)
  }

  function HungUp(x: Session): Session {
    x.(state := Ended)
  }

  /** A bridge that starts makes the call active. */
  function Bridged(x: Session, started: bool): Session {
    if started then Activated(BridgeTried(x, started)) else BridgeTried(x, started)
  }

  /** The session object. Its methods are the stretches a handler goes through;
      the steps below cut them where other handlers can come in between. */
  class CallSession {
    const callID: string
    const direction: Direction
    var state: CallState
    var modemID: Option<string>
    var cancelled: bool
    var bridging: bool
    var mediaOpen: bool
    ghost var dials: nat
    ghost var acks: nat
    ghost var answers: nat
    ghost var bridges: nat
    ghost var hangups: nat

    constructor (callID: string, direction: Direction)
      ensures View() == NewSession(callID, direction)
    {
      this.callID, this.direction := callID, direction;
      state, modemID := Init, None;
      cancelled, bridging, mediaOpen := false, false, true;
      dials, acks, answers, bridges, hangups := 0, 0, 0, 0, 0;
    }

    ghost function View(): Session
      reads this
    {
      Session(callID, direction, state, modemID, cancelled, bridging, mediaOpen, dials, acks, answers, bridges, hangups)
    }

    /** ready, routed and accepted: the modem answers, the voice route is up, ATD
        is taken. Only a call the client dials needs them; it then records the id
        the modem gave its leg. */
    method Dial(ready: bool, routed: bool, accepted: bool, id: string) returns (ok: bool)
      modifies this
      ensures View() == if ok && direction.Outbound? then LegRecorded(Dialled(old(View())), id) else Dialled(old(View()))
      ensures ok == (direction.Outbound? ==> ready && routed && accepted)
    {
      state := Dialing;
      dials := dials + 1;
      if direction.Outbound? {
        if !ready {
          return false;
        }
        if !routed {
          return false;
        }
        if !accepted {
          return false;
        }
        modemID := Some(id);
      }
      return true;
    }

    method AwaitBridge(answered: bool, started: bool) returns (ok: bool)
      modifies this
      ensures ok == (answered && started)
      ensures View() == if answered then Bridged(old(View()), started) else old(View())
    {
      if !answered {
        return false;
      }
      ok := StartBridge(started);
    }

    method StartBridge(started: bool) returns (ok: bool)
      modifies this
      ensures ok == started && View() == Bridged(old(View()), started)
    {
      bridges := bridges + 1;
      if !started {
        return false;
      }
      bridging := true;
      state := Active;
      return true;
    }

    /** Claims the pickup of an inbound call; only the winner touches the modem. */
    method BeginAnswer() returns (won: bool)
      modifies this
      ensures won == old(state).Init?
      ensures View() == if won then PickupClaimed(old(View())) else old(View())
    {
      if state != Init {
        return false;
      }
      state := Answering;
      return true;
    }

    /** A modem that does not confirm the call as active is not held against it. */
    method AnswerInbound(accepted: bool, id: string, started: bool) returns (ok: bool)
      modifies this
      ensures ok == (accepted && started)
      ensures View() == if accepted then Bridged(LegRecorded(AnswerTried(old(View())), id), started) else AnswerTried(old(View()))
    {
      answers := answers + 1;
      if !accepted {
        return false;
      }
      modemID := Some(id);
      ok := StartBridge(started);
    }

    /** Releases everything the call holds: its context, the bridge, the modem line
        and the media port; whether the modem obeys does not matter. */
    method Hangup()
      modifies this
      ensures View() == HungUp(LineReleased(CallStopped(old(View()))))
    {
      cancelled := true;
      bridging := false;
      hangups := hangups + 1;
      mediaOpen := false;
      state := Ended;
    }
  }

  // ---------------------------------------------------------------- steps

  datatype Step =
    | Make(callID: string, direction: Direction)
    | ClaimID
    | BeginDial
    | DialResult(ok: bool, id: string)
    | PickedUp(ok: bool)
    | StartBridge(ok: bool)
    | MarkActive
    | ReceiveOk(callID: string)
    | BeginAnswer
    | SendAck
    | Answer(ok: bool, id: string)
    | BeginHangup(sid: nat)
    | StopCall
    | ReleaseLine
    | EndHangup
    | Delete(sid: nat)

  predicate Enabled(s: Server, t: nat, step: Step) {
    var pc := s.Pc(t);
    match step
    case Make(_, _) => pc.Idle?
    case ClaimID => pc.Made? && pc.sid < |s.table|
    case BeginDial => pc.WonDial? && pc.sid < |s.table|
    case DialResult(_, _) => pc.InDial? && pc.sid < |s.table|
    case PickedUp(_) => pc.Awaiting? && pc.sid < |s.table|
    case StartBridge(_) => pc.BridgeReady? && pc.sid < |s.table|
    case MarkActive => pc.AtBridge? && pc.sid < |s.table|
    case ReceiveOk(callID) =>
      pc.Idle? && callID in s.sessions && s.sessions[callID] < |s.table| && s.table[s.sessions[callID]].direction.Inbound?
    case BeginAnswer => pc.GotOk? && pc.sid < |s.table|
    case SendAck => pc.MustAck? && pc.sid < |s.table|
    case Answer(_, _) => pc.MustAnswer? && pc.sid < |s.table|
    case BeginHangup(sid) => pc.Idle? && sid < |s.table|
    case StopCall => pc.InHangup? && pc.sid < |s.table|
    case ReleaseLine => pc.Stopped? && pc.sid < |s.table|
    case EndHangup => pc.Released? && pc.sid < |s.table|
    case Delete(sid) => pc.Idle? && sid < |s.table|
  }

  /** A handler of session sid deletes by Call-ID, whichever session is stored there. */
  function Remove(s: Server, sid: nat): Server
    requires sid < |s.table|
  {
    s.(sessions := s.sessions - {s.table[sid].callID}, log := s.log + [Deleted(s.table[sid].callID, sid)])
  }

  function Do(s: Server, t: nat, step: Step): Server
    requires Enabled(s, t, step)
  {
    var pc := s.Pc(t);
    match step
    case Make(callID, direction) => s.Go(t, Made(|s.table|)).(table := s.table + [NewSession(callID, direction)])
    case ClaimID =>
      var x := s.table[pc.sid];
      var (sessions, won) := Claim(s.sessions, x.callID, pc.sid);
      if !won then s.Go(t, Idle).With(pc.sid, MediaClosed(x))
      else s.Go(t, if x.direction.Outbound? then WonDial(pc.sid) else Idle).(sessions := sessions, log := s.log + [Won(x.callID, pc.sid)])
    case BeginDial =>
      s.Go(t, InDial(pc.sid)).With(pc.sid, Dialled(s.table[pc.sid]))
    case DialResult(ok, id) =>
      var x := s.table[pc.sid];
      if ok then s.Go(t, Awaiting(pc.sid)).With(pc.sid, LegRecorded(x, id))
      else Remove(s.Go(t, Idle).With(pc.sid, MediaClosed(x)), pc.sid)
    case PickedUp(ok) => s.Go(t, if ok then BridgeReady(pc.sid) else InHangup(pc.sid))
    case StartBridge(ok) =>
      s.Go(t, if ok then AtBridge(pc.sid) else InHangup(pc.sid)).With(pc.sid, BridgeTried(s.table[pc.sid], ok))
    case MarkActive => s.Go(t, Idle).With(pc.sid, Activated(s.table[pc.sid]))
    case ReceiveOk(callID) => s.Go(t, GotOk(s.sessions[callID]))
    case BeginAnswer =>
      var x := s.table[pc.sid];
      if x.state.Init? then s.Go(t, MustAck(pc.sid)).With(pc.sid, PickupClaimed(x)) else s.Go(t, Idle)
    case SendAck =>
      s.Go(t, MustAnswer(pc.sid)).With(pc.sid, Acknowledged(s.table[pc.sid]))
    case Answer(ok, id) =>
      var x := AnswerTried(s.table[pc.sid]);
      s.Go(t, if ok then BridgeReady(pc.sid) else InHangup(pc.sid)).With(pc.sid, if ok then LegRecorded(x, id) else x)
    case BeginHangup(sid) => s.Go(t, InHangup(sid))
    case StopCall => s.Go(t, Stopped(pc.sid)).With(pc.sid, CallStopped(s.table[pc.sid]))
    case ReleaseLine => s.Go(t, Released(pc.sid)).With(pc.sid, LineReleased(s.table[pc.sid]))
    case EndHangup => s.Go(t, Idle).With(pc.sid, HungUp(s.table[pc.sid]))
    case Delete(sid) => Remove(s, sid)
  }

  ghost predicate IsRun(run: seq<Server>, who: seq<nat>, steps: seq<Step>) {
    && |run| == |steps| + 1 == |who| + 1 && run[0] == STARTED
    && forall i :: 0 <= i < |steps| ==> Enabled(run[i], who[i], steps[i]) && run[i + 1] == Do(run[i], who[i], steps[i])
  }

  // ---------------------------------------------------------------- invariant

  /** The session a goroutine is the one to carry forward. */
  function WorksOn(pc: PC): Option<nat> {
    if pc.Idle? || pc.GotOk? || pc.InHangup? || pc.Stopped? || pc.Released? then None else Some(pc.sid)
  }

  ghost predicate IsWon(s: Server, sid: nat) {
    exists c :: Won(c, sid) in s.log
  }

  ghost predicate StageOk(pc: PC, x: Session, won: bool) {
    match pc
    case Made(_) => !won && (x.state.Init? || x.state.Ended?) && x.dials == x.acks == x.answers == x.bridges == 0
    case WonDial(_) => won && x.direction.Outbound? && x.dials == x.acks == x.answers == x.bridges == 0
    case InDial(_) => won && x.direction.Outbound? && x.dials == 1 && x.acks == x.answers == x.bridges == 0
    case Awaiting(_) => won && x.direction.Outbound? && x.modemID.Some? && x.dials == 1 && x.acks == x.answers == x.bridges == 0
    case GotOk(_) => won && x.direction.Inbound?
    case MustAck(_) => won && x.direction.Inbound? && !x.state.Init? && x.dials == x.acks == x.answers == x.bridges == 0
    case MustAnswer(_) => won && x.direction.Inbound? && !x.state.Init? && x.acks == 1 && x.dials == x.answers == x.bridges == 0
    case BridgeReady(_) => won && x.bridges == 0 && Prepared(x)
    case AtBridge(_) => won && x.bridges == 1 && Prepared(x)
    case Stopped(_) => x.cancelled
    case Released(_) => LetGo(x)
    case _ => true
  }

  /** Everything that has to happen once before a bridge has happened once. */
  ghost predicate Prepared(x: Session) {
    x.modemID.Some? && if x.direction.Inbound? then !x.state.Init? && x.acks == x.answers == 1 && x.dials == 0
    else x.dials == 1 && x.acks == x.answers == 0
  }

  /** Context cancelled, modem told to hang up, media closed. */
  ghost predicate LetGo(x: Session) {
    x.cancelled && x.hangups > 0 && !x.mediaOpen
  }

  ghost predicate SessionOk(x: Session, won: bool) {
    && x.dials <= 1 && x.answers <= x.acks <= 1 && x.bridges <= 1
    && (x.bridges == 1 ==> Prepared(x)) && (x.bridging ==> x.bridges == 1)
    && (x.state.Ended? ==> LetGo(x)) && (x.state.Active? ==> x.bridges == 1)
    && (x.dials + x.acks > 0 ==> won && !x.state.Init?)
    && (x.state.Dialing? ==> x.dials == 1) && (x.state.Answering? ==> x.direction.Inbound?)
    && (x.direction.Inbound? ==> x.dials == 0)
  }

  function LastFor(log: seq<MapEvent>, callID: string): Option<MapEvent> {
    if log == [] then None
    else if log[|log| - 1].callID == callID then Some(log[|log| - 1])
    else LastFor(log[..|log| - 1], callID)
  }

  /** Two wins of one Call-ID have a delete of it in between. */
  ghost predicate WinsSeparated(log: seq<MapEvent>) {
    forall i, j :: 0 <= i < j < |log| && log[i].Won? && log[j].Won? && log[i].callID == log[j].callID ==>
      exists k :: i < k < j && Deletes(log[k], log[i].callID)
  }

  ghost predicate Deletes(e: MapEvent, callID: string) {
    e.Deleted? && e.callID == callID
  }

  ghost predicate MapOk(s: Server) {
    && WinsSeparated(s.log)
    && (forall c :: c in s.sessions <==> LastFor(s.log, c).Some? && LastFor(s.log, c).value.Won?)
    && (forall c :: c in s.sessions ==> s.sessions[c] < |s.table| && Won(c, s.sessions[c]) in s.log)
    && (forall e :: e in s.log && e.Won? ==> e.sid < |s.table|)
  }

  ghost predicate ThreadsOk(s: Server) {
    && (forall t: nat :: !s.Pc(t).Idle? ==> s.Pc(t).sid < |s.table| && StageOk(s.Pc(t), s.table[s.Pc(t).sid], IsWon(s, s.Pc(t).sid)))
    && (forall t: nat, u: nat :: WorksOn(s.Pc(t)).Some? && WorksOn(s.Pc(t)) == WorksOn(s.Pc(u)) ==> t == u)
  }

  /** Nobody carries a ringing inbound session forward before it is picked up. */
  ghost predicate RingingOk(s: Server) {
    forall t: nat :: WorksOn(s.Pc(t)).Some? && !s.Pc(t).Made? && s.Pc(t).sid < |s.table| && s.table[s.Pc(t).sid].direction.Inbound?
                     ==> !s.table[s.Pc(t).sid].state.Init?
  }

  ghost predicate Inv(s: Server) {
    && MapOk(s) && ThreadsOk(s) && RingingOk(s)
    && (forall i :: 0 <= i < |s.table| ==> SessionOk(s.table[i], IsWon(s, i)))
  }

  lemma LastForAppend(log: seq<MapEvent>, e: MapEvent, callID: string)
    ensures LastFor(log + [e], callID) == if e.callID == callID then Some(e) else LastFor(log, callID)
  {
    assert (log + [e])[..|log|] == log;
  }

  lemma {:induction false} DeletedAfterLastWin(log: seq<MapEvent>, callID: string, i: nat)
    requires i < |log| && log[i].Won? && log[i].callID == callID
    requires LastFor(log, callID).Some? && LastFor(log, callID).value.Deleted?
    ensures exists k :: i < k < |log| && Deletes(log[k], callID)
  {
    var n := |log| - 1;
    if log[n].callID == callID {
      assert Deletes(log[n], callID);
    } else {
      DeletedAfterLastWin(log[..n], callID, i);
      var k :| i < k < n && Deletes(log[..n][k], callID);
      assert Deletes(log[k], callID);
    }
  }

  lemma {:induction false} WinHasLast(log: seq<MapEvent>, callID: string, i: nat)
    requires i < |log| && log[i].callID == callID
    ensures LastFor(log, callID).Some?
  {
    var n := |log| - 1;
    if log[n].callID == callID {
    } else {
      WinHasLast(log[..n], callID, i);
    }
  }

  /** A win of a Call-ID the map does not hold. */
  lemma WinKeepsMap(s: Server, callID: string, sid: nat)
    requires MapOk(s) && callID !in s.sessions && sid < |s.table|
    ensures MapOk(s.(sessions := s.sessions[callID := sid], log := s.log + [Won(callID, sid)]))
  {
    hide LastFor;
    var e := Won(callID, sid);
    var r := s.(sessions := s.sessions[callID := sid], log := s.log + [e]);
    forall c
      ensures c in r.sessions <==> LastFor(r.log, c).Some? && LastFor(r.log, c).value.Won?
    {
      LastForAppend(s.log, e, c);
    }
    forall i, j | 0 <= i < j < |r.log| && r.log[i].Won? && r.log[j].Won? && r.log[i].callID == r.log[j].callID
      ensures exists k :: i < k < j && Deletes(r.log[k], r.log[i].callID)
    {
      if j < |s.log| {
        var k :| i < k < j && Deletes(s.log[k], s.log[i].callID);
        assert r.log[k] == s.log[k];
      } else {
        WinHasLast(s.log, callID, i);
        DeletedAfterLastWin(s.log, callID, i);
        var k :| i < k < |s.log| && Deletes(s.log[k], callID);
        assert r.log[k] == s.log[k];
      }
    }
    assert r.log[|s.log|] == e;
  }

  lemma DeleteKeepsMap(s: Server, sid: nat)
    requires MapOk(s) && sid < |s.table|
    ensures MapOk(Remove(s, sid))
  {
    hide LastFor;
    var e := Deleted(s.table[sid].callID, sid);
    var r := Remove(s, sid);
    forall c
      ensures c in r.sessions <==> LastFor(r.log, c).Some? && LastFor(r.log, c).value.Won?
    {
      LastForAppend(s.log, e, c);
    }
    forall i, j | 0 <= i < j < |r.log| && r.log[i].Won? && r.log[j].Won? && r.log[i].callID == r.log[j].callID
      ensures exists k :: i < k < j && Deletes(r.log[k], r.log[i].callID)
    {
      var k :| i < k < j && Deletes(s.log[k], s.log[i].callID);
      assert r.log[k] == s.log[k];
    }
  }

  lemma MapStep(s: Server, t: nat, step: Step)
    requires MapOk(s) && Enabled(s, t, step)
    ensures MapOk(Do(s, t, step))
  {
    hide LastFor, WinsSeparated, IsWon;
    var pc := s.Pc(t);
    match step
    case ClaimID =>
      var x := s.table[pc.sid];
      if x.callID !in s.sessions {
        WinKeepsMap(s, x.callID, pc.sid);
      }
    case DialResult(ok, _) =>
      if !ok {
        DeleteKeepsMap(s, pc.sid);
      }
    case Delete(sid) => DeleteKeepsMap(s, sid);
    case _ =>
      QuietStep(s, t, step);
      MapStays(s, Do(s, t, step));
  }

  lemma QuietStep(s: Server, t: nat, step: Step)
    requires Enabled(s, t, step) && !step.ClaimID? && !step.DialResult? && !step.Delete?
    ensures var r := Do(s, t, step); r.sessions == s.sessions && r.log == s.log && |s.table| <= |r.table|
  {
  }

  lemma MapStays(s: Server, r: Server)
    requires MapOk(s) && r.sessions == s.sessions && r.log == s.log && |s.table| <= |r.table|
    ensures MapOk(r)
  {
    hide LastFor, WinsSeparated;
  }

  /** Won stays won, and only a claim makes a session won. */
  lemma WonStep(s: Server, t: nat, step: Step, sid: nat)
    requires Enabled(s, t, step)
    ensures IsWon(s, sid) ==> IsWon(Do(s, t, step), sid)
    ensures IsWon(Do(s, t, step), sid) && !IsWon(s, sid) ==>
              step.ClaimID? && s.Pc(t).sid == sid && s.table[sid].callID !in s.sessions
    ensures step.ClaimID? && s.table[s.Pc(t).sid].callID !in s.sessions ==> IsWon(Do(s, t, step), s.Pc(t).sid)
  {
    var r := Do(s, t, step);
    assert s.log <= r.log;
    if IsWon(s, sid) {
      var c :| Won(c, sid) in s.log;
      assert Won(c, sid) in r.log;
    }
    if IsWon(r, sid) {
      var c :| Won(c, sid) in r.log;
      if r.log != s.log {
        assert r.log == s.log + [r.log[|s.log|]];
      }
    }
    if step.ClaimID? && s.table[s.Pc(t).sid].callID !in s.sessions {
      assert r.log[|s.log|] == Won(s.table[s.Pc(t).sid].callID, s.Pc(t).sid);
    }
  }

  lemma SessionsStep(s: Server, t: nat, step: Step)
    requires Inv(s) && Enabled(s, t, step)
    ensures var r := Do(s, t, step); forall i :: 0 <= i < |r.table| ==> SessionOk(r.table[i], IsWon(r, i))
  {
    hide IsWon, Inv, Enabled, SessionOk, Do;
    var r := Do(s, t, step);
    forall i | 0 <= i < |r.table|
      ensures SessionOk(r.table[i], IsWon(r, i))
    {
      WonStep(s, t, step, i);
      StageOfMover(s, t);
      KnownSession(s, i);
      SessionStep(s, t, step, i);
    }
  }

  lemma SessionStep(s: Server, t: nat, step: Step, i: nat)
    requires Enabled(s, t, step) && i < |Do(s, t, step).table|
    requires i < |s.table| ==> SessionOk(s.table[i], IsWon(s, i)) && (IsWon(s, i) ==> IsWon(Do(s, t, step), i))
    requires MoverOk(s, t)
    ensures SessionOk(Do(s, t, step).table[i], IsWon(Do(s, t, step), i))
  {
    hide IsWon, SessionOk, MoverOk;
    if Carrying(step) {
      CarryingStep(s, t, step, i);
    } else {
      OtherStep(s, t, step, i);
    }
  }

  /** The steps that bring a call up. */
  predicate Carrying(step: Step) {
    step.BeginDial? || step.DialResult? || step.SendAck? || step.Answer? || step.StartBridge? || step.MarkActive?
  }

  lemma CarryingStep(s: Server, t: nat, step: Step, i: nat)
    requires Enabled(s, t, step) && Carrying(step) && i < |s.table|
    requires SessionOk(s.table[i], IsWon(s, i)) && (IsWon(s, i) ==> IsWon(Do(s, t, step), i)) && MoverOk(s, t)
    ensures i < |Do(s, t, step).table| && SessionOk(Do(s, t, step).table[i], IsWon(Do(s, t, step), i))
  {
    hide IsWon;
  }

  lemma OtherStep(s: Server, t: nat, step: Step, i: nat)
    requires Enabled(s, t, step) && !Carrying(step) && i < |Do(s, t, step).table|
    requires i < |s.table| ==> SessionOk(s.table[i], IsWon(s, i)) && (IsWon(s, i) ==> IsWon(Do(s, t, step), i))
    requires MoverOk(s, t)
    ensures SessionOk(Do(s, t, step).table[i], IsWon(Do(s, t, step), i))
  {
    hide IsWon;
  }

  ghost predicate MoverOk(s: Server, t: nat) {
    var pc := s.Pc(t);
    !pc.Idle? ==> pc.sid < |s.table| && StageOk(pc, s.table[pc.sid], IsWon(s, pc.sid))
  }

  lemma StageOfMover(s: Server, t: nat)
    requires Inv(s)
    ensures MoverOk(s, t)
  {
    hide MapOk, RingingOk, StageOk, SessionOk, IsWon;
  }

  lemma KnownSession(s: Server, i: nat)
    requires Inv(s)
    ensures i < |s.table| ==> SessionOk(s.table[i], IsWon(s, i))
  {
    hide MapOk, RingingOk, ThreadsOk, SessionOk, IsWon;
  }

  lemma MovedThreadOk(s: Server, t: nat, step: Step)
    requires Inv(s) && Enabled(s, t, step)
    ensures var r := Do(s, t, step); var pc := r.Pc(t);
            !pc.Idle? ==> pc.sid < |r.table| && StageOk(pc, r.table[pc.sid], IsWon(r, pc.sid))
  {
    hide MapOk, RingingOk, IsWon, SessionOk, StageOk, ThreadsOk;
    var r := Do(s, t, step);
    var pc := r.Pc(t);
    if !pc.Idle? {
      WonStep(s, t, step, pc.sid);
      StageOfMover(s, t);
      KnownSession(s, pc.sid);
      if Carrying(step) {
        CarriedFurther(s, t, step);
      } else {
        if step.ReceiveOk? {
          InMapIsWon(s, step.callID);
        }
        if step.Make? {
          NewIsNotWon(s);
        }
        MovedOtherwise(s, t, step);
      }
    }
  }

  lemma CarriedFurther(s: Server, t: nat, step: Step)
    requires Enabled(s, t, step) && Carrying(step) && MoverOk(s, t)
    requires IsWon(s, s.Pc(t).sid) ==> IsWon(Do(s, t, step), s.Pc(t).sid)
    requires SessionOk(s.table[s.Pc(t).sid], IsWon(s, s.Pc(t).sid))
    ensures MoverOk(Do(s, t, step), t)
  {
    hide IsWon;
  }

  lemma MovedOtherwise(s: Server, t: nat, step: Step)
    requires Enabled(s, t, step) && !Carrying(step) && MoverOk(s, t)
    requires var r := Do(s, t, step); var pc := r.Pc(t);
             && !pc.Idle? && (pc.sid < |s.table| ==> SessionOk(s.table[pc.sid], IsWon(s, pc.sid)))
             && (IsWon(s, pc.sid) ==> IsWon(r, pc.sid))
             && (step.Make? ==> !IsWon(r, pc.sid)) && (step.ReceiveOk? ==> IsWon(r, pc.sid))
             && (step.ClaimID? && s.table[s.Pc(t).sid].callID !in s.sessions ==> IsWon(r, s.Pc(t).sid))
    ensures MoverOk(Do(s, t, step), t)
  {
    hide IsWon;
  }

  lemma InMapIsWon(s: Server, callID: string)
    requires MapOk(s) && callID in s.sessions
    ensures IsWon(s, s.sessions[callID]) && s.sessions[callID] < |s.table|
  {
    hide LastFor, WinsSeparated;
  }

  lemma NewIsNotWon(s: Server)
    requires MapOk(s)
    ensures !IsWon(s, |s.table|)
  {
    hide LastFor, WinsSeparated;
  }

  /** What a step of one goroutine leaves of another's stage. */
  lemma OtherThreadOk(s: Server, t: nat, step: Step, u: nat)
    requires Inv(s) && Enabled(s, t, step) && u != t && !s.Pc(u).Idle?
    ensures var r := Do(s, t, step); var pc := s.Pc(u);
            pc.sid < |r.table| && StageOk(pc, r.table[pc.sid], IsWon(r, pc.sid))
  {
    hide MapOk, IsWon;
    var r := Do(s, t, step);
    var pc := s.Pc(u);
    WonStep(s, t, step, pc.sid);
    assert StageOk(pc, s.table[pc.sid], IsWon(s, pc.sid));
    assert pc.Made? && step.ClaimID? ==> s.Pc(t).sid != pc.sid;
  }

  lemma ThreadsStep(s: Server, t: nat, step: Step)
    requires Inv(s) && Enabled(s, t, step)
    ensures ThreadsOk(Do(s, t, step))
  {
    hide MapOk, StageOk, IsWon, SessionOk;
    var r := Do(s, t, step);
    assert forall u: nat :: u != t ==> r.Pc(u) == s.Pc(u);
    forall u: nat | !r.Pc(u).Idle?
      ensures r.Pc(u).sid < |r.table| && StageOk(r.Pc(u), r.table[r.Pc(u).sid], IsWon(r, r.Pc(u).sid))
    {
      if u == t {
        MovedThreadOk(s, t, step);
      } else {
        OtherThreadOk(s, t, step, u);
      }
    }
    forall u: nat, v: nat | WorksOn(r.Pc(u)).Some? && WorksOn(r.Pc(u)) == WorksOn(r.Pc(v))
      ensures u == v
    {
      WorkersStayApart(s, t, step, u, v);
    }
  }

  /** A goroutine comes to carry a session forward only by making it or by winning
      its pickup. */
  lemma WorkStep(s: Server, t: nat, step: Step)
    requires Enabled(s, t, step)
    ensures var r, work := Do(s, t, step), WorksOn(Do(s, t, step).Pc(t));
            && (forall u: nat :: u != t ==> r.Pc(u) == s.Pc(u))
            && (work.Some? ==> work.value < |r.table|)
            && (work.Some? ==>
                  || r.Pc(t) == Made(|s.table|)
                  || (WorksOn(s.Pc(t)) == work && (s.Pc(t).Made? ==> r.table[work.value].direction.Outbound?) && !r.Pc(t).Made?)
                  || (s.Pc(t) == GotOk(work.value) && work.value < |s.table| && s.table[work.value].state.Init?
                      && !r.table[work.value].state.Init? && !r.Pc(t).Made?))
  {
  }

  lemma WorkersStayApart(s: Server, t: nat, step: Step, u: nat, v: nat)
    requires Inv(s) && Enabled(s, t, step)
    requires var r := Do(s, t, step); WorksOn(r.Pc(u)).Some? && WorksOn(r.Pc(u)) == WorksOn(r.Pc(v))
    ensures u == v
  {
    hide MapOk, IsWon, SessionOk, Do, Enabled;
    WorkStep(s, t, step);
    if u != t {
      WorkerIsAlone(s, t, step, u);
    }
    if v != t {
      WorkerIsAlone(s, t, step, v);
    }
  }

  lemma WorkerIsAlone(s: Server, t: nat, step: Step, v: nat)
    requires Inv(s) && Enabled(s, t, step) && v != t && WorksOn(s.Pc(v)).Some?
    ensures WorksOn(Do(s, t, step).Pc(t)) != WorksOn(s.Pc(v))
  {
    hide MapOk, IsWon, SessionOk, Do, Enabled;
    WorkStep(s, t, step);
    assert StageOk(s.Pc(v), s.table[s.Pc(v).sid], IsWon(s, s.Pc(v).sid));
    if !s.Pc(t).Idle? {
      assert StageOk(s.Pc(t), s.table[s.Pc(t).sid], IsWon(s, s.Pc(t).sid));
    }
  }

  lemma RingingStep(s: Server, t: nat, step: Step)
    requires Inv(s) && Enabled(s, t, step)
    ensures RingingOk(Do(s, t, step))
  {
    hide MapOk, IsWon, SessionOk, Do, StageOk, Enabled;
    var r := Do(s, t, step);
    WorkStep(s, t, step);
    forall u: nat | WorksOn(r.Pc(u)).Some? && !r.Pc(u).Made? && r.Pc(u).sid < |r.table| && r.table[r.Pc(u).sid].direction.Inbound?
      ensures !r.table[r.Pc(u).sid].state.Init?
    {
      var sid := r.Pc(u).sid;
      if u != t || WorksOn(s.Pc(t)) == Some(sid) {
        InitIsLeftForGood(s, t, step, sid);
      }
    }
  }

  lemma StepKeeps(s: Server, t: nat, step: Step)
    requires Inv(s) && Enabled(s, t, step)
    ensures Inv(Do(s, t, step))
  {
    hide MapOk, ThreadsOk, RingingOk, SessionOk, IsWon, Enabled;
    MapStep(s, t, step);
    ThreadsStep(s, t, step);
    RingingStep(s, t, step);
    SessionsStep(s, t, step);
  }

  lemma StartHolds()
    ensures Inv(STARTED)
  {
  }

  lemma {:induction false} RunKeeps(run: seq<Server>, who: seq<nat>, steps: seq<Step>, n: nat)
    requires IsRun(run, who, steps) && n < |run|
    ensures Inv(run[n])
  {
    hide Enabled, Do, Inv;
    if n == 0 {
      StartHolds();
    } else {
      RunKeeps(run, who, steps, n - 1);
      StepKeeps(run[n - 1], who[n - 1], steps[n - 1]);
    }
  }

  // ---------------------------------------------------------------- what every run keeps

  /** Two wins of one Call-ID are separated by a delete of it, whoever issued it. */
  lemma OneOwnerPerCallID(run: seq<Server>, who: seq<nat>, steps: seq<Step>, n: nat)
    requires IsRun(run, who, steps) && n < |run|
    ensures WinsSeparated(run[n].log)
  {
    hide Enabled, Do, WinsSeparated, LastFor;
    RunKeeps(run, who, steps, n);
  }

  /** However many INVITEs and 200 OKs are repeated: only a session that won its
      Call-ID is dialled, acknowledged, answered or bridged, each at most once; a
      bridge comes after the one dial, or after the one ACK and the one answer. */
  lemma EachOnlyOnce(run: seq<Server>, who: seq<nat>, steps: seq<Step>, n: nat, sid: nat)
    requires IsRun(run, who, steps) && n < |run| && sid < |run[n].table|
    ensures var x := run[n].table[sid];
            && x.dials <= 1 && x.acks <= 1 && x.answers <= 1 && x.bridges <= 1
            && (x.dials + x.acks + x.answers + x.bridges > 0 ==> IsWon(run[n], sid) && !x.state.Init?)
            && (x.bridges > 0 ==> if x.direction.Inbound? then x.acks == x.answers == 1 && x.dials == 0 else x.dials == 1 && x.acks == 0)
  {
    hide Enabled, Do, MapOk, ThreadsOk, RingingOk;
    RunKeeps(run, who, steps, n);
    assert SessionOk(run[n].table[sid], IsWon(run[n], sid));
  }

  /** A session that ended has its context cancelled, the modem told to hang up and
      its media closed. A bridge is tried only once, and only for a session that
      recorded which cellular leg it owns. */
  lemma EndedIsLetGo(run: seq<Server>, who: seq<nat>, steps: seq<Step>, n: nat, sid: nat)
    requires IsRun(run, who, steps) && n < |run| && sid < |run[n].table|
    ensures run[n].table[sid].state.Ended? ==> LetGo(run[n].table[sid])
    ensures run[n].table[sid].bridging ==> run[n].table[sid].bridges == 1
    ensures run[n].table[sid].bridges > 0 ==> run[n].table[sid].modemID.Some?
  {
    hide Enabled, Do, MapOk, ThreadsOk, RingingOk;
    RunKeeps(run, who, steps, n);
    assert SessionOk(run[n].table[sid], IsWon(run[n], sid));
  }

  // ---------------------------------------------------------------- nothing is left behind

  /** Some goroutine has the session in hand. */
  ghost predicate Carried(s: Server, sid: nat) {
    exists t: nat :: Carries(s.Pc(t), sid)
  }

  predicate Carries(pc: PC, sid: nat) {
    !pc.Idle? && !pc.GotOk? && pc.sid == sid
  }

  /** Nothing is left to do for the session until somebody hangs up or answers: it is
      up, it ended, it rings, or it has no media any more and the map does not hold it. */
  ghost predicate Settled(s: Server, sid: nat) {
    && sid < |s.table|
    && var x := s.table[sid];
       || x.state.Active? || x.state.Ended? || (x.direction.Inbound? && x.state.Init? && IsWon(s, sid))
       || (!x.mediaOpen && !Owns(s, sid))
  }

  /** What the goroutine that moves leaves behind. */
  lemma MoverSettles(s: Server, t: nat, step: Step, sid: nat)
    requires Inv(s) && Enabled(s, t, step) && sid < |s.table| && Carries(s.Pc(t), sid)
    ensures Carries(Do(s, t, step).Pc(t), sid) || Settled(Do(s, t, step), sid)
  {
    hide MapOk, RingingOk, IsWon;
    StageOfMover(s, t);
    WonStep(s, t, step, sid);
    OwnerIsWon(s, sid);
  }

  lemma OwnerIsWon(s: Server, sid: nat)
    requires MapOk(s) && sid < |s.table|
    ensures Owns(s, sid) ==> IsWon(s, sid)
  {
    hide LastFor, WinsSeparated;
  }

  /** A settled session stays so or gets into somebody's hands. */
  lemma SettledStep(s: Server, t: nat, step: Step, sid: nat)
    requires Inv(s) && Enabled(s, t, step) && sid < |s.table| && Settled(s, sid) && !Carries(s.Pc(t), sid)
    ensures Carries(Do(s, t, step).Pc(t), sid) || Settled(Do(s, t, step), sid)
  {
    hide MapOk, RingingOk, IsWon;
    WonStep(s, t, step, sid);
  }

  lemma NewIsCarried(s: Server, t: nat, step: Step, sid: nat)
    requires Enabled(s, t, step) && |s.table| <= sid < |Do(s, t, step).table|
    ensures Carries(Do(s, t, step).Pc(t), sid)
  {
  }

  /** In every run every session is in the hands of some goroutine, or it is up, or it
      ended, or it rings, or it was given up: its media are closed and its Call-ID is
      free. No outcome of a claim, a dial, a wait, a pickup or a bridge leaves one behind. */
  lemma {:induction false} NoneLeftBehind(run: seq<Server>, who: seq<nat>, steps: seq<Step>, n: nat, sid: nat)
    requires IsRun(run, who, steps) && n < |run| && sid < |run[n].table|
    ensures Carried(run[n], sid) || Settled(run[n], sid)
  {
    hide Do, Enabled, Inv, Settled, Carries;
    assert run[0].table == [];
    assert n > 0;
    var m := n - 1;
    var t := who[m];
    RunKeeps(run, who, steps, m);
    OthersStay(run[m], t, steps[m]);
    if sid >= |run[m].table| {
      NewIsCarried(run[m], t, steps[m], sid);
    } else {
      NoneLeftBehind(run, who, steps, m, sid);
      if Carries(run[m].Pc(t), sid) {
        MoverSettles(run[m], t, steps[m], sid);
      } else if Carried(run[m], sid) {
        var u: nat :| Carries(run[m].Pc(u), sid);
        assert Carries(run[n].Pc(u), sid);
      } else {
        SettledStep(run[m], t, steps[m], sid);
      }
    }
  }

  lemma OthersStay(s: Server, t: nat, step: Step)
    requires Enabled(s, t, step)
    ensures forall u: nat :: u != t ==> Do(s, t, step).Pc(u) == s.Pc(u)
  {
  }

  /** In every run every goroutine that is busy has a step it can take. */
  lemma NobodyIsStuck(run: seq<Server>, who: seq<nat>, steps: seq<Step>, n: nat, t: nat)
    requires IsRun(run, who, steps) && n < |run| && !run[n].Pc(t).Idle?
    ensures exists step :: Enabled(run[n], t, step)
  {
    hide Do, MapOk, RingingOk, SessionOk, IsWon, StageOk, IsRun;
    RunKeeps(run, who, steps, n);
    var s := run[n];
    StageOfMover(s, t);
    var step := match s.Pc(t)
      case Made(_) => ClaimID
      case WonDial(_) => BeginDial
      case InDial(_) => DialResult(false, "")
      case Awaiting(_) => PickedUp(false)
      case GotOk(_) => Step.BeginAnswer
      case MustAck(_) => SendAck
      case MustAnswer(_) => Answer(false, "")
      case BridgeReady(_) => Step.StartBridge(false)
      case AtBridge(_) => MarkActive
      case Stopped(_) => ReleaseLine
      case Released(_) => EndHangup
      case _ => StopCall;
    assert Enabled(s, t, step);
  }

  /** The leg a session names is the one that its own dial or pickup was given. */
  ghost predicate Records(s: Server, t: nat, step: Step, sid: nat, id: string) {
    (step == DialResult(true, id) && s.Pc(t) == InDial(sid)) || (step == Answer(true, id) && s.Pc(t) == MustAnswer(sid))
  }

  lemma LegStep(s: Server, t: nat, step: Step, sid: nat, id: string)
    requires Enabled(s, t, step) && sid < |Do(s, t, step).table| && Do(s, t, step).table[sid].modemID == Some(id)
    ensures Records(s, t, step, sid, id) || (sid < |s.table| && s.table[sid].modemID == Some(id))
  {
  }

  lemma {:induction false} LegWasRecorded(run: seq<Server>, who: seq<nat>, steps: seq<Step>, n: nat, sid: nat, id: string)
    requires IsRun(run, who, steps) && n < |run| && sid < |run[n].table| && run[n].table[sid].modemID == Some(id)
    ensures exists k :: 0 <= k < n && Records(run[k], who[k], steps[k], sid, id)
  {
    hide Do, Enabled, Records;
    assert run[0].table == [];
    assert n > 0;
    var m := n - 1;
    LegStep(run[m], who[m], steps[m], sid, id);
    if !Records(run[m], who[m], steps[m], sid, id) {
      LegWasRecorded(run, who, steps, m, sid, id);
    }
  }

  /** The first 200 OK for a call that rings brings it up: one ACK, then one answer,
      then the bridge; whatever else is going on. */
  lemma FirstOkAnswers(s: Server, t: nat, callID: string, id: string) returns (run: seq<Server>)
    requires Inv(s) && s.Pc(t).Idle? && callID in s.sessions
    requires s.table[s.sessions[callID]].direction.Inbound? && s.table[s.sessions[callID]].state.Init?
    ensures var steps := [ReceiveOk(callID), Step.BeginAnswer, SendAck, Answer(true, id), Step.StartBridge(true), MarkActive];
            && |run| == 7 && run[0] == s
            && forall i :: 0 <= i < 6 ==> Moves(run[i], t, steps[i], run[i + 1])
    ensures var sid := s.sessions[callID];
            var x := s.table[sid];
            && run[6].sessions == s.sessions && run[6].log == s.log
            && run[6].table == s.table[sid := x.(state := Active, modemID := Some(id), acks := x.acks + 1, answers := x.answers + 1,
                                                 bridges := x.bridges + 1, bridging := true)]
            && forall u: nat :: run[6].Pc(u) == s.Pc(u)
  {
    hide Do, Enabled, ThreadsOk, RingingOk, SessionOk, IsWon, LastFor, WinsSeparated;
    var s1, s2, s3 := PickupFirst(s, t, callID);
    var s4, s5, s6 := BridgeNext(s3, t, s.sessions[callID], id);
    run := [s, s1, s2, s3, s4, s5, s6];
    assert run[6].table == s.table[s.sessions[callID] := run[6].table[s.sessions[callID]]];
  }

  lemma PickupFirst(s: Server, t: nat, callID: string) returns (s1: Server, s2: Server, s3: Server)
    requires s.Pc(t).Idle? && callID in s.sessions && s.sessions[callID] < |s.table|
    requires s.table[s.sessions[callID]].direction.Inbound? && s.table[s.sessions[callID]].state.Init?
    ensures Moves(s, t, ReceiveOk(callID), s1) && Moves(s1, t, Step.BeginAnswer, s2) && Moves(s2, t, SendAck, s3)
    ensures var sid := s.sessions[callID];
            s3 == s.(threads := s.threads[t := MustAnswer(sid)],
                     table := s.table[sid := s.table[sid].(state := Answering, acks := s.table[sid].acks + 1)])
  {
    s1 := Do(s, t, ReceiveOk(callID));
    assert s1 == s.(threads := s.threads[t := GotOk(s.sessions[callID])]);
    s2 := Do(s1, t, Step.BeginAnswer);
    s3 := Do(s2, t, SendAck);
  }

  lemma BridgeNext(s: Server, t: nat, sid: nat, id: string) returns (s4: Server, s5: Server, s6: Server)
    requires s.Pc(t) == MustAnswer(sid) && sid < |s.table|
    ensures Moves(s, t, Answer(true, id), s4) && Moves(s4, t, Step.StartBridge(true), s5) && Moves(s5, t, MarkActive, s6)
    ensures var x := s.table[sid];
            s6 == s.(threads := s.threads[t := PC.Idle],
                     table := s.table[sid := x.(state := Active, modemID := Some(id), answers := x.answers + 1,
                                                bridges := x.bridges + 1, bridging := true)])
  {
    s4 := Do(s, t, Answer(true, id));
    assert s4.Pc(t) == BridgeReady(sid);
    s5 := Do(s4, t, Step.StartBridge(true));
    assert s5.Pc(t) == AtBridge(sid);
    s6 := Do(s5, t, MarkActive);
  }

  /** A 200 OK that is repeated changes nothing. */
  lemma RepeatedOkIsQuiet(s: Server, t: nat, callID: string)
    requires Enabled(s, t, ReceiveOk(callID)) && !s.table[s.sessions[callID]].state.Init?
    ensures var s1 := Do(s, t, ReceiveOk(callID));
            && Enabled(s1, t, Step.BeginAnswer)
            && var s2 := Do(s1, t, Step.BeginAnswer);
               && s2.table == s.table && s2.sessions == s.sessions && s2.log == s.log
               && forall u: nat :: s2.Pc(u) == s.Pc(u)
  {
  }

  /** In every run the state says what has been done: a dialing session was dialled, an
      answering one is inbound, an active one had its bridge tried. */
  lemma StateMeans(run: seq<Server>, who: seq<nat>, steps: seq<Step>, n: nat, sid: nat)
    requires IsRun(run, who, steps) && n < |run| && sid < |run[n].table|
    ensures var x := run[n].table[sid];
            && (x.state.Init? ==> x.dials == x.acks == x.answers == x.bridges == 0)
            && (x.state.Dialing? ==> x.direction.Outbound? && x.dials == 1)
            && (x.state.Answering? ==> x.direction.Inbound?)
            && (x.state.Active? ==> x.bridges == 1 && x.modemID.Some?)
  {
    hide Enabled, Do, MapOk, ThreadsOk, RingingOk;
    RunKeeps(run, who, steps, n);
    assert SessionOk(run[n].table[sid], IsWon(run[n], sid));
  }

  ghost predicate StartsBridge(s: Server, t: nat, step: Step, sid: nat) {
    step == StartBridge(true) && s.Pc(t) == BridgeReady(sid)
  }

  ghost predicate StopsBridge(s: Server, t: nat, step: Step, sid: nat) {
    step.StopCall? && s.Pc(t) == InHangup(sid)
  }

  /** The bridge was started and no hangup has stopped it since. */
  ghost predicate StartedLast(run: seq<Server>, who: seq<nat>, steps: seq<Step>, n: nat, sid: nat)
    requires n <= |steps| && |run| == |steps| + 1 == |who| + 1
  {
    exists j :: 0 <= j < n && StartsBridge(run[j], who[j], steps[j], sid) && NotStopped(run, who, steps, j + 1, n, sid)
  }

  ghost predicate NotStopped(run: seq<Server>, who: seq<nat>, steps: seq<Step>, from: nat, n: nat, sid: nat)
    requires from <= n <= |steps| && |run| == |steps| + 1 == |who| + 1
  {
    forall k :: from <= k < n ==> !StopsBridge(run[k], who[k], steps[k], sid)
  }

  lemma BridgeStep(s: Server, t: nat, step: Step, sid: nat)
    requires Enabled(s, t, step) && sid < |Do(s, t, step).table|
    ensures Do(s, t, step).table[sid].bridging <==>
            StartsBridge(s, t, step, sid) || (sid < |s.table| && s.table[sid].bridging && !StopsBridge(s, t, step, sid))
    ensures StartsBridge(s, t, step, sid) ==> sid < |s.table|
    ensures |s.table| <= |Do(s, t, step).table|
  {
  }

  /** In every run, ended or not, a session's bridge runs exactly when it was started
      after the last hangup stopped it: a hangup that comes between the answer and the
      start of the bridge leaves the bridge running. */
  lemma {:induction false} BridgeRunsIff(run: seq<Server>, who: seq<nat>, steps: seq<Step>, n: nat, sid: nat)
    requires IsRun(run, who, steps) && n < |run|
    ensures StartedLast(run, who, steps, n, sid) ==> sid < |run[n].table|
    ensures sid < |run[n].table| ==> (run[n].table[sid].bridging <==> StartedLast(run, who, steps, n, sid))
  {
    hide Do, Enabled, StartsBridge, StopsBridge;
    if n == 0 {
      assert run[0].table == [];
    } else {
      var m := n - 1;
      BridgeRunsIff(run, who, steps, m, sid);
      StartedLastStep(run, who, steps, m, sid);
      if sid < |run[n].table| {
        BridgeStep(run[m], who[m], steps[m], sid);
      } else {
        NotInTable(run[m], who[m], steps[m], sid);
      }
    }
  }

  lemma NotInTable(s: Server, t: nat, step: Step, sid: nat)
    requires Enabled(s, t, step) && sid >= |Do(s, t, step).table|
    ensures !StartsBridge(s, t, step, sid) && sid >= |s.table|
  {
  }

  lemma StartedLastStep(run: seq<Server>, who: seq<nat>, steps: seq<Step>, m: nat, sid: nat)
    requires m < |steps| && |run| == |steps| + 1 == |who| + 1
    ensures StartedLast(run, who, steps, m + 1, sid) <==>
            || StartsBridge(run[m], who[m], steps[m], sid)
            || (StartedLast(run, who, steps, m, sid) && !StopsBridge(run[m], who[m], steps[m], sid))
  {
    hide StartsBridge, StopsBridge;
    if StartsBridge(run[m], who[m], steps[m], sid) {
      assert NotStopped(run, who, steps, m + 1, m + 1, sid);
    }
    if StartedLast(run, who, steps, m, sid) && !StopsBridge(run[m], who[m], steps[m], sid) {
      var j :| 0 <= j < m && StartsBridge(run[j], who[j], steps[j], sid) && NotStopped(run, who, steps, j + 1, m, sid);
      assert NotStopped(run, who, steps, j + 1, m + 1, sid);
    }
    if StartedLast(run, who, steps, m + 1, sid) && !StartsBridge(run[m], who[m], steps[m], sid) {
      var j :| 0 <= j < m + 1 && StartsBridge(run[j], who[j], steps[j], sid) && NotStopped(run, who, steps, j + 1, m + 1, sid);
      assert NotStopped(run, who, steps, j + 1, m, sid);
    }
  }

  /** A client hangs up just as the far end answers: the session ends with its bridge
      running and nobody left to stop it. */
  lemma EndedStillBridging() returns (run: seq<Server>, who: seq<nat>, steps: seq<Step>)
    ensures IsRun(run, who, steps) && |run| == 12 && |run[11].table| == 1
    ensures run[11].table[0].state.Ended? && run[11].table[0].bridging && forall t: nat :: run[11].Pc(t).Idle?
  {
    hide Do, Enabled;
    var s1, s2, s3, s4, s5 := DialUp();
    var s6, s7, s8, s9, s10, s11 := HangupBeforeBridge(s5);
    who := [0, 0, 0, 0, 0, 1, 1, 0, 0, 1, 1];
    steps := [Make("c", Outbound), ClaimID, BeginDial, DialResult(true, "m"), PickedUp(true), BeginHangup(0), StopCall, StartBridge(true),
              MarkActive, ReleaseLine, EndHangup];
    run := [STARTED, s1, s2, s3, s4, s5, s6, s7, s8, s9, s10, s11];
  }

  ghost predicate Moves(s: Server, t: nat, step: Step, r: Server) {
    Enabled(s, t, step) && r == Do(s, t, step)
  }

  lemma DialUp() returns (s1: Server, s2: Server, s3: Server, s4: Server, s5: Server)
    ensures Moves(STARTED, 0, Make("c", Outbound), s1) && Moves(s1, 0, ClaimID, s2) && Moves(s2, 0, BeginDial, s3)
    ensures Moves(s3, 0, DialResult(true, "m"), s4) && Moves(s4, 0, PickedUp(true), s5)
    ensures |s5.table| == 1 && s5.threads == map[0 := BridgeReady(0)]
  {
    s1 := Do(STARTED, 0, Make("c", Outbound));
    s2 := Do(s1, 0, ClaimID);
    assert s2.threads == map[0 := WonDial(0)];
    s3 := Do(s2, 0, BeginDial);
    assert s3.threads == map[0 := InDial(0)];
    s4 := Do(s3, 0, DialResult(true, "m"));
    s5 := Do(s4, 0, PickedUp(true));
  }

  lemma HangupBeforeBridge(s: Server) returns (s6: Server, s7: Server, s8: Server, s9: Server, s10: Server, s11: Server)
    requires |s.table| == 1 && s.threads == map[0 := BridgeReady(0)]
    ensures Moves(s, 1, BeginHangup(0), s6) && Moves(s6, 1, StopCall, s7) && Moves(s7, 0, StartBridge(true), s8)
    ensures Moves(s8, 0, MarkActive, s9) && Moves(s9, 1, ReleaseLine, s10) && Moves(s10, 1, EndHangup, s11)
    ensures |s11.table| == 1 && s11.table[0].state.Ended? && s11.table[0].bridging && forall t: nat :: s11.Pc(t).Idle?
  {
    hide Do, Enabled;
    s6, s7 := StopFirst(s);
    s8, s9 := BridgeSecond(s7);
    s10, s11 := EndLast(s9);
  }

  lemma StopFirst(s: Server) returns (s6: Server, s7: Server)
    requires |s.table| == 1 && s.threads == map[0 := BridgeReady(0)]
    ensures Moves(s, 1, BeginHangup(0), s6) && Moves(s6, 1, StopCall, s7)
    ensures |s7.table| == 1 && s7.threads == map[0 := BridgeReady(0), 1 := Stopped(0)]
  {
    s6 := Do(s, 1, BeginHangup(0));
    s7 := Do(s6, 1, StopCall);
  }

  lemma BridgeSecond(s: Server) returns (s8: Server, s9: Server)
    requires |s.table| == 1 && s.threads == map[0 := BridgeReady(0), 1 := Stopped(0)]
    ensures Moves(s, 0, StartBridge(true), s8) && Moves(s8, 0, MarkActive, s9)
    ensures |s9.table| == 1 && s9.table[0].bridging && s9.threads == map[0 := PC.Idle, 1 := Stopped(0)]
  {
    s8 := Do(s, 0, StartBridge(true));
    s9 := Do(s8, 0, MarkActive);
  }

  lemma EndLast(s: Server) returns (s10: Server, s11: Server)
    requires |s.table| == 1 && s.table[0].bridging && s.threads == map[0 := PC.Idle, 1 := Stopped(0)]
    ensures Moves(s, 1, ReleaseLine, s10) && Moves(s10, 1, EndHangup, s11)
    ensures |s11.table| == 1 && s11.table[0].state.Ended? && s11.table[0].bridging && forall t: nat :: s11.Pc(t).Idle?
  {
    s10 := Do(s, 1, ReleaseLine);
    s11 := Do(s10, 1, EndHangup);
  }

  // ---------------------------------------------------------------- one call per Call-ID

  /** The session was dialled and has not let its media go, as a failed dial and a
      hangup do. */
  ghost predicate Busy(x: Session) {
    x.dials == 1 && x.mediaOpen
  }

  ghost predicate Owns(s: Server, sid: nat)
    requires sid < |s.table|
  {
    s.table[sid].callID in s.sessions && s.sessions[s.table[sid].callID] == sid
  }

  /** The step takes the map's entry from its owner, whose media stay open; whoever
      issues it. */
  ghost predicate RemovesEarly(s: Server, t: nat, step: Step, sid: nat) {
    && Enabled(s, t, step) && sid < |s.table| && Owns(s, sid)
    && Do(s, t, step).table[sid].mediaOpen && s.table[sid].callID !in Do(s, t, step).sessions
  }

  lemma OwnerStep(s: Server, t: nat, step: Step, sid: nat)
    requires Enabled(s, t, step) && sid < |Do(s, t, step).table|
    requires IsWon(Do(s, t, step), sid) && Do(s, t, step).table[sid].mediaOpen
    ensures sid < |s.table| || step.Make?
    ensures sid < |s.table| ==> s.table[sid].mediaOpen
    ensures sid < |s.table| && !IsWon(s, sid) ==> Owns(Do(s, t, step), sid)
    ensures sid < |s.table| && Owns(s, sid) ==> Owns(Do(s, t, step), sid) || RemovesEarly(s, t, step, sid)
  {
    hide IsWon;
    if sid < |s.table| {
      WonStep(s, t, step, sid);
    }
  }

  /** A session that won its Call-ID and still has its media is the one the map holds,
      unless its entry was removed early. */
  lemma {:induction false} OwnerOrRemoved(run: seq<Server>, who: seq<nat>, steps: seq<Step>, n: nat, sid: nat)
    requires IsRun(run, who, steps) && n < |run| && sid < |run[n].table| && IsWon(run[n], sid) && run[n].table[sid].mediaOpen
    ensures Owns(run[n], sid) || exists k :: 0 <= k < n && RemovesEarly(run[k], who[k], steps[k], sid)
  {
    hide Do, Enabled, IsWon, Owns, RemovesEarly;
    if n > 0 {
      var m := n - 1;
      OwnerStep(run[m], who[m], steps[m], sid);
      if sid >= |run[m].table| {
        NewIsUnclaimed(run, who, steps, m, sid);
      } else if IsWon(run[m], sid) {
        OwnerOrRemoved(run, who, steps, m, sid);
      }
    }
  }

  lemma NewIsUnclaimed(run: seq<Server>, who: seq<nat>, steps: seq<Step>, m: nat, sid: nat)
    requires IsRun(run, who, steps) && m < |steps| && sid >= |run[m].table| && steps[m].Make?
    ensures !IsWon(run[m + 1], sid)
  {
    hide MapOk, ThreadsOk, RingingOk, SessionOk;
    RunKeeps(run, who, steps, m);
    UnknownIsNotWon(run[m], sid);
  }

  lemma UnknownIsNotWon(s: Server, sid: nat)
    requires MapOk(s) && sid >= |s.table|
    ensures !IsWon(s, sid)
  {
    hide LastFor, WinsSeparated;
  }

  /** In every run two dialled sessions of one Call-ID, neither of which has let its
      media go, mean that the entry of one of them was removed early. */
  lemma TwoCallsNeedAnEarlyDelete(run: seq<Server>, who: seq<nat>, steps: seq<Step>, n: nat, i: nat, j: nat)
    requires IsRun(run, who, steps) && n < |run| && i < j < |run[n].table|
    requires Busy(run[n].table[i]) && Busy(run[n].table[j]) && run[n].table[i].callID == run[n].table[j].callID
    ensures exists k, sid :: 0 <= k < n && sid in {i, j} && RemovesEarly(run[k], who[k], steps[k], sid)
  {
    hide Do, Enabled, MapOk, ThreadsOk, RingingOk, RemovesEarly, IsWon;
    RunKeeps(run, who, steps, n);
    assert SessionOk(run[n].table[i], IsWon(run[n], i)) && SessionOk(run[n].table[j], IsWon(run[n], j));
    OwnerOrRemoved(run, who, steps, n, i);
    OwnerOrRemoved(run, who, steps, n, j);
  }

  /** And an early removal is all it takes, even by the handler of an older session of
      the same Call-ID that is long over: the next INVITE is dialled beside the call
      that is up. */
  lemma EarlyDeleteAdmitsSecondCall(s: Server, stale: nat, sid: nat, t: nat) returns (s1: Server, s2: Server, s3: Server, s4: Server)
    requires stale < |s.table| && sid < |s.table| && s.table[stale].callID == s.table[sid].callID
    requires Busy(s.table[sid]) && s.Pc(t).Idle?
    ensures var callID := s.table[sid].callID;
            && Enabled(s, t, Delete(stale)) && s1 == Do(s, t, Delete(stale))
            && Enabled(s1, t, Make(callID, Outbound)) && s2 == Do(s1, t, Make(callID, Outbound))
            && Enabled(s2, t, ClaimID) && s3 == Do(s2, t, ClaimID)
            && Enabled(s3, t, BeginDial) && s4 == Do(s3, t, BeginDial)
    ensures var n := |s.table|;
            |s4.table| == n + 1 && Busy(s4.table[sid]) && Busy(s4.table[n]) && s4.table[n].callID == s4.table[sid].callID
  {
    s1 := Do(s, t, Delete(stale));
    s2 := Do(s1, t, Make(s.table[sid].callID, Outbound));
    s3 := Do(s2, t, ClaimID);
    s4 := Do(s3, t, BeginDial);
  }

  /** No step puts a session back to its initial state, which is why a pickup can
      be claimed once only. */
  lemma InitIsLeftForGood(s: Server, t: nat, step: Step, sid: nat)
    requires Enabled(s, t, step) && sid < |s.table|
    ensures sid < |Do(s, t, step).table|
    ensures !s.table[sid].state.Init? ==> !Do(s, t, step).table[sid].state.Init?
    ensures Do(s, t, step).table[sid].callID == s.table[sid].callID && Do(s, t, step).table[sid].direction == s.table[sid].direction
  {
  }
}
