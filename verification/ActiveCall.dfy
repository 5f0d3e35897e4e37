/** The wrapper that maps the modem's own call ids to the logical id of the one
    call in progress, and relabels call events on their way through. */
module ActiveCall {
  import opened ModemEvents

  const EVENT_BUFFER: nat := 32

  /** The wrapper's bookkeeping; "" stands for no id. */
  datatype Book = Book(active: string, logical: string, lastPhysical: string, lastLogical: string)

  function Dialled(b: Book, callID: string): Book {
    b.(active := callID, lastPhysical := "", lastLogical := "")
  }

  /** After the modem accepted the hangup. */
  function HungUp(b: Book): Book {
    Book("", "", b.active, b.logical)
  }

  /** One event passing through: the new bookkeeping and the event published. */
  function Forward(b: Book, e: Event): (Book, Event) {
    var logicalID := if e.callID == b.lastPhysical && b.lastLogical != "" then b.lastLogical else b.logical;
    var active := if e.kind.Incoming? && e.callID != "" && b.active == "" then e.callID else b.active;
    var known := e.callID == active || e.callID == b.lastPhysical;
    var published := if e.callID != "" && known && logicalID != "" then e.(callID := logicalID) else e;
    var book :=
      if e.kind.Ended? && known then
        if b.lastPhysical == "" then Book("", "", e.callID, b.logical) else b.(active := "", logical := "")
      else b.(active := active);
    (book, published)
  }

  class ActiveCallAdapter {
    var active: string
    var logical: string
    var lastPhysical: string
    var lastLogical: string
    var events: seq<Event>

    constructor ()
      ensures View() == Book("", "", "", "") && events == []
    {
      active, logical, lastPhysical, lastLogical := "", "", "", "";
      events := [];
    }

    ghost function View(): Book
      reads this
    {
      Book(active, logical, lastPhysical, lastLogical)
    }

    method SetLogicalCallID(callID: string)
      modifies this
      ensures View() == old(View()).(logical := callID) && events == old(events)
    {
      logical := callID;
    }

    /** The end of Dial: the modem accepted the call and named it. */
    method DialAccepted(callID: string)
      modifies this
      ensures View() == Dialled(old(View()), callID) && events == old(events)
    {
      active := callID;
      lastPhysical := "";
      lastLogical := "";
    }

    /** The end of Hangup: the modem's verdict on it is in. */
    method HangupAnswered(ok: bool)
      modifies this
      ensures View() == (if ok then HungUp(old(View())) else old(View())) && events == old(events)
    {
      if ok {
        lastPhysical := active;
        lastLogical := logical;
        active := "";
        logical := "";
      }
    }

    /** One turn of the forwarding loop. */
    method ForwardEvent(e: Event)
      modifies this
      ensures View() == Forward(old(View()), e).0
      ensures events == Offer(old(events), 32, Forward(old(View()), e).1)
    {
      var physicalID := e.callID;
      var logicalID := logical;
      var event := e;
      if physicalID == lastPhysical && lastLogical != "" {
        logicalID := lastLogical;
      }
      if e.kind.Incoming? && physicalID != "" && active == "" {
        active := physicalID;
      }
      if physicalID != "" && (physicalID == active || physicalID == lastPhysical) && logicalID != "" {
        event := event.(callID := logicalID);
      }
      if e.kind.Ended? && (physicalID == active || physicalID == lastPhysical) {
        if lastPhysical == "" {
          lastPhysical := physicalID;
          lastLogical := logical;
        }
        active := "";
        logical := "";
      }
      if |events| < EVENT_BUFFER {
        events := events + [event];
      }
    }
  }

  // ---------------------------------------------------------------- the hangup race

  function ForwardAll(b: Book, es: seq<Event>): Book
    decreases |es|
  {
    if es == [] then b else ForwardAll(Forward(b, es[0]).0, es[1..])
  }

  function PublishAll(b: Book, es: seq<Event>): seq<Event>
    decreases |es|
  {
    if es == [] then [] else [Forward(b, es[0]).1] + PublishAll(Forward(b, es[0]).0, es[1..])
  }

  /** The call's own events under its logical id, all others as they are. */
  function Relabelled(es: seq<Event>, callID: string, logical: string): seq<Event> {
    if es == [] then []
    else [if es[0].callID == callID && logical != "" then es[0].(callID := logical) else es[0]] + Relabelled(es[1..], callID, logical)
  }

  predicate NoEndOf(es: seq<Event>, callID: string) {
    forall i :: 0 <= i < |es| ==> !(es[i].kind.Ended? && es[i].callID == callID)
  }

  /** The dialled call is up. */
  ghost predicate Live(b: Book, callID: string, logical: string) {
    b.active == callID && b.logical == logical && b.lastPhysical == ""
  }

  /** One of the two ends of the call is through: its event, or the hangup. */
  ghost predicate HalfEnded(b: Book, callID: string, logical: string) {
    b.lastPhysical == callID && b.lastLogical == logical && b.logical == ""
  }

  /** The call's logical id is gone from both places. */
  ghost predicate Forgotten(b: Book, callID: string) {
    b.logical == "" && (b.lastPhysical == callID ==> b.lastLogical == "")
  }

  lemma {:induction false} LiveStays(b: Book, es: seq<Event>, callID: string, logical: string)
    requires Live(b, callID, logical) && callID != "" && NoEndOf(es, callID) && NoEndOf(es, "")
    ensures Live(ForwardAll(b, es), callID, logical) && PublishAll(b, es) == Relabelled(es, callID, logical)
    decreases |es|
  {
    if es == [] {
      assert ForwardAll(b, es) == b;
    } else {
      assert NoEndOf(es[1..], callID) && NoEndOf(es[1..], "");
      LiveStays(Forward(b, es[0]).0, es[1..], callID, logical);
    }
  }

  lemma {:induction false} HalfEndedStays(b: Book, es: seq<Event>, callID: string, logical: string)
    requires HalfEnded(b, callID, logical) && callID != ""
    ensures HalfEnded(ForwardAll(b, es), callID, logical) && PublishAll(b, es) == Relabelled(es, callID, logical)
    decreases |es|
  {
    if es == [] {
      assert ForwardAll(b, es) == b;
    } else {
      HalfEndedStays(Forward(b, es[0]).0, es[1..], callID, logical);
    }
  }

  lemma {:induction false} ForgottenStays(b: Book, es: seq<Event>, callID: string)
    requires Forgotten(b, callID) && callID != ""
    ensures Forgotten(ForwardAll(b, es), callID)
    decreases |es|
  {
    if es == [] {
      assert ForwardAll(b, es) == b;
    } else {
      ForgottenStays(Forward(b, es[0]).0, es[1..], callID);
    }
  }

  /** An ended event without an id makes the wrapper forget the live call. */
  lemma {:induction false} NamelessEndForgets(b: Book, es: seq<Event>, callID: string, logical: string)
    requires Live(b, callID, logical) && callID != "" && NoEndOf(es, callID) && !NoEndOf(es, "")
    ensures Forgotten(ForwardAll(b, es), callID)
    decreases |es|
  {
    var next := Forward(b, es[0]).0;
    assert NoEndOf(es[1..], callID);
    if es[0].kind.Ended? && es[0].callID == "" {
      ForgottenStays(next, es[1..], callID);
    } else {
      var i :| 0 <= i < |es| && es[i].kind.Ended? && es[i].callID == "";
      assert es[1..][i - 1] == es[i];
      NamelessEndForgets(next, es[1..], callID, logical);
    }
  }

  lemma {:induction false} RelabelledConcat(a: seq<Event>, b: seq<Event>, callID: string, logical: string)
    ensures Relabelled(a + b, callID, logical) == Relabelled(a, callID, logical) + Relabelled(b, callID, logical)
  {
    if a == [] {
      assert a + b == b;
    } else {
      assert (a + b)[1..] == a[1..] + b;
      RelabelledConcat(a[1..], b, callID, logical);
    }
  }

  /** The call the wrapper has adopted by the end of these events: the first incoming
      one while it has none, until that one ends. callID is the call being hung up. */
  function Adopted(active: string, es: seq<Event>, callID: string): string
    decreases |es|
  {
    if es == [] then active
    else
      var e := es[0];
      var now := if e.kind.Incoming? && e.callID != "" && active == "" then e.callID else active;
      Adopted(if e.kind.Ended? && e.callID in {now, callID} then "" else now, es[1..], callID)
  }

  lemma {:induction false} AdoptedIsActive(b: Book, es: seq<Event>, callID: string, logical: string)
    requires HalfEnded(b, callID, logical) && callID != ""
    ensures ForwardAll(b, es).active == Adopted(b.active, es, callID)
    decreases |es|
  {
    if es == [] {
    } else {
      AdoptedIsActive(Forward(b, es[0]).0, es[1..], callID, logical);
    }
  }

  /** adopted is the call active just before the second of the two ends. */
  datatype HangupRun = HangupRun(final: Book, published: Event, others: seq<Event>, adopted: string)

  /** A call is hung up and its ended event comes through, in either order, with
      other events before the first and between the two. */
  function RunHangup(b: Book, ended: Event, before: seq<Event>, between: seq<Event>, eventFirst: bool): HangupRun {
    var b1 := ForwardAll(b, before);
    var b2 := if eventFirst then Forward(b1, ended).0 else HungUp(b1);
    var b3 := ForwardAll(b2, between);
    var others := PublishAll(b, before) + PublishAll(b2, between);
    if eventFirst then HangupRun(HungUp(b3), Forward(b1, ended).1, others, b3.active)
    else HangupRun(Forward(b3, ended).0, Forward(b3, ended).1, others, b3.active)
  }

  /** For a call dialled under a logical id, its first ended event and its hangup in
      either order, any other events before the first and any at all between the
      two. If no ended event without an id came before, the ended event is published
      under the logical id (its own when there is none), the bookkeeping ends empty,
      and no other call's event is relabelled. If one did, the ended event keeps the
      modem's id. Ending empty is a loss when a call came in between the two ends: the
      wrapper forgets the call it had adopted, which can then be neither answered nor
      hung up through it. */
  lemma EndedKeepsItsLogicalId(b: Book, callID: string, logical: string, ended: Event, before: seq<Event>, between: seq<Event>,
                               eventFirst: bool)
    requires callID != "" && ended.kind.Ended? && ended.callID == callID && NoEndOf(before, callID)
    ensures var run := RunHangup(Dialled(b.(logical := logical), callID), ended, before, between, eventFirst);
            && (NoEndOf(before, "") ==>
                  && run.final.active == "" && run.final.logical == ""
                  && run.published == ended.(callID := if logical == "" then callID else logical)
                  && run.others == Relabelled(before + between, callID, logical)
                  && run.adopted == Adopted("", between, callID))
            && (logical !in {"", callID} ==> (run.published == ended.(callID := logical) <==> NoEndOf(before, "")))
  {
    var b0 := Dialled(b.(logical := logical), callID);
    var b1 := ForwardAll(b0, before);
    var b2 := if eventFirst then Forward(b1, ended).0 else HungUp(b1);
    if NoEndOf(before, "") {
      LiveStays(b0, before, callID, logical);
      HalfEndedStays(b2, between, callID, logical);
      AdoptedIsActive(b2, between, callID, logical);
      RelabelledConcat(before, between, callID, logical);
    } else {
      NamelessEndForgets(b0, before, callID, logical);
      ForgottenStays(b2, between, callID);
    }
  }

  /** Such a call: a line that ends a call the modem no longer names arrives first,
      and the dialled call's own end goes out under the modem's id. */
  lemma NamelessEndLosesTheLabel()
    ensures var ended := Event(Ended, "call_1", "", "NO CARRIER");
            var run := RunHangup(Dialled(Book("", "logical_1", "", ""), "call_1"), ended, [Event(Ended, "", "", "BUSY")], [], true);
            run.published == ended
  {
    var before := [Event(Ended, "", "", "BUSY")];
    assert before[0].callID == "";
    assert before[1..] == [];
  }

  /** Whether the wrapper lets a call be answered or hung up. */
  predicate Reachable(b: Book, callID: string) {
    callID != "" && b.active == callID
  }

  /** The second of the two ends takes a ringing call from the wrapper, in either
      order, exactly when the events in between leave one adopted. */
  lemma RingingCallIsForgotten(b: Book, callID: string, logical: string, ended: Event, before: seq<Event>, between: seq<Event>,
                               eventFirst: bool)
    requires callID != "" && ended.kind.Ended? && ended.callID == callID && NoEndOf(before, callID) && NoEndOf(before, "")
    ensures var run := RunHangup(Dialled(b.(logical := logical), callID), ended, before, between, eventFirst);
            && (run.adopted != "" <==> Adopted("", between, callID) != "")
            && forall id :: !Reachable(run.final, id)
  {
    EndedKeepsItsLogicalId(b, callID, logical, ended, before, between, eventFirst);
  }

  /** A call that rings in between the two ends of another is lost so. */
  lemma RingBetweenIsLost(eventFirst: bool)
    ensures var between := [Event(Incoming, "call_2", "110", "")];
            var run := RunHangup(Dialled(Book("", "logical_1", "", ""), "call_1"), Event(Ended, "call_1", "", ""), [], between, eventFirst);
            run.adopted == "call_2" && run.others == between && run.final.active == ""
  {
    var between := [Event(Incoming, "call_2", "110", "")];
    var ended := Event(Ended, "call_1", "", "");
    assert between[1..] == [] && [] + between == between;
    EndedKeepsItsLogicalId(Book("", "", "", ""), "call_1", "logical_1", ended, [], between, eventFirst);
    assert Relabelled(between, "call_1", "logical_1") == between;
  }

  /** Which ended events take the live call's bookkeeping down: its own, and one
      that names no call at all. */
  lemma WhatEndsTheLiveCall(b: Book, callID: string, logical: string, e: Event)
    requires Live(b, callID, logical) && callID != "" && e.kind.Ended?
    ensures Forward(b, e).0.active == "" <==> e.callID == callID || e.callID == ""
    ensures e.callID == "" ==> Forward(b, e).1 == e
  {
  }
}
