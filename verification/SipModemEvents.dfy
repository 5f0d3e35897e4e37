/** Finding the SIP session a modem event is about. */
module SipModemEvents {
  import opened Text
  import opened SipDialogs

  /** What the lookup sees of a session. modemID is "" until its leg is up. */
  datatype Leg = Leg(state: CallState, modemID: string)

  type Sessions = map<string, Leg>

  /** order is one enumeration of the map's keys. */
  ghost predicate Enumerates(order: seq<string>, sessions: Sessions) {
    && (forall k :: k in order <==> k in sessions)
    && (forall i, j :: 0 <= i < j < |order| ==> order[i] != order[j])
  }

  predicate OwnsLeg(leg: Leg, eventID: string) {
    !leg.state.Ended? && leg.modemID != "" && leg.modemID == eventID
  }

  predicate CarriesAudio(leg: Leg) {
    leg.state.Active?
  }

  /** The session an ended event of eventID is about, None when there is none. */
  method SessionForModemEvent(sessions: Sessions, order: seq<string>, eventID: string) returns (found: Option<string>)
    requires Enumerates(order, sessions)
    ensures found == Lookup(sessions, order, eventID)
  {
    hide ByModemID, ByAudio;
    var key := "in-" + eventID;
    if key in sessions && !sessions[key].state.Ended? {
      return Some(key);
    }
    assert order[0..] == order;
    var byAudio: Option<string> := None;
    for i := 0 to |order|
      invariant ByModemID(sessions, order, eventID) == ByModemID(sessions, order[i..], eventID)
      invariant ByAudio(sessions, order) == if byAudio.Some? then byAudio else ByAudio(sessions, order[i..])
    {
      WalkStep(sessions, order[i..], eventID);
      assert order[i..][1..] == order[i + 1..];
      var leg := sessions[order[i]];
      if !leg.state.Ended? {
        if leg.modemID != "" && leg.modemID == eventID {
          return Some(order[i]);
        }
        if byAudio.None? && leg.state.Active? {
          byAudio := Some(order[i]);
        }
      }
    }
    WalkStep(sessions, order[|order|..], eventID);
    return byAudio;
  }

  lemma WalkStep(sessions: Sessions, order: seq<string>, eventID: string)
    requires forall i :: 0 <= i < |order| ==> order[i] in sessions
    ensures order == [] ==> ByModemID(sessions, order, eventID) == None && ByAudio(sessions, order) == None
    ensures order != [] ==>
              && ByModemID(sessions, order, eventID)
                 == (if OwnsLeg(sessions[order[0]], eventID) then Some(order[0]) else ByModemID(sessions, order[1..], eventID))
              && ByAudio(sessions, order) == (if CarriesAudio(sessions[order[0]]) then Some(order[0]) else ByAudio(sessions, order[1..]))
  {
  }

  function ByModemID(sessions: Sessions, order: seq<string>, eventID: string): (r: Option<string>)
    requires forall i :: 0 <= i < |order| ==> order[i] in sessions
    ensures r.Some? ==> r.value in order && OwnsLeg(sessions[r.value], eventID)
    ensures r.None? ==> forall k :: k in order ==> !OwnsLeg(sessions[k], eventID)
  {
    if order == [] then None
    else if OwnsLeg(sessions[order[0]], eventID) then Some(order[0])
    else ByModemID(sessions, order[1..], eventID)
  }

  function ByAudio(sessions: Sessions, order: seq<string>): (r: Option<string>)
    requires forall i :: 0 <= i < |order| ==> order[i] in sessions
    ensures r.Some? ==> r.value in order && CarriesAudio(sessions[r.value])
    ensures r.None? ==> forall k :: k in order ==> !CarriesAudio(sessions[k])
  {
    if order == [] then None
    else if CarriesAudio(sessions[order[0]]) then Some(order[0])
    else ByAudio(sessions, order[1..])
  }

  /** By key, else by recorded modem id, else the session carrying audio. */
  function Lookup(sessions: Sessions, order: seq<string>, eventID: string): Option<string>
    requires forall i :: 0 <= i < |order| ==> order[i] in sessions
  {
    var key := "in-" + eventID;
    if key in sessions && !sessions[key].state.Ended? then Some(key)
    else
      var owner := ByModemID(sessions, order, eventID);
      if owner.Some? then owner else ByAudio(sessions, order)
  }

  /** An ended session is never found, and a session that is not carrying audio is
      found only by its key or its own modem id: an event left over from an earlier
      call cannot end a call that is still being set up. */
  lemma StaleEventsSpareNewCalls(sessions: Sessions, order: seq<string>, eventID: string)
    requires Enumerates(order, sessions)
    ensures var found := Lookup(sessions, order, eventID);
            found.Some? ==>
              && found.value in sessions && !sessions[found.value].state.Ended?
              && (!sessions[found.value].state.Active? ==>
                    found.value == "in-" + eventID || (eventID != "" && sessions[found.value].modemID == eventID))
  {
  }

  /** The key goes before a recorded modem id, and that before carrying audio. */
  lemma LookupPrefers(sessions: Sessions, order: seq<string>, eventID: string)
    requires Enumerates(order, sessions)
    ensures var found, key := Lookup(sessions, order, eventID), "in-" + eventID;
            var keyed := key in sessions && !sessions[key].state.Ended?;
            var owned := eventID != "" && exists k :: k in sessions && !sessions[k].state.Ended? && sessions[k].modemID == eventID;
            && (keyed ==> found == Some(key))
            && (!keyed && owned ==> found.Some? && found.value in sessions && sessions[found.value].modemID == eventID)
            && (!keyed && !owned && found.Some? ==> found.value in sessions && sessions[found.value].state == Active)
  {
    hide ByAudio;
    assert forall k :: k in sessions <==> k in order;
    if k :| k in sessions && eventID != "" && !sessions[k].state.Ended? && sessions[k].modemID == eventID {
      assert OwnsLeg(sessions[k], eventID);
    }
    var owner := ByModemID(sessions, order, eventID);
    if owner.Some? {
      assert OwnsLeg(sessions[owner.value], eventID);
    }
  }

  predicate SameLeg(a: Leg, b: Leg) {
    !a.state.Ended? && !b.state.Ended? && a.modemID == b.modemID != ""
  }

  /** Live sessions have distinct modem ids and at most one carries audio. */
  ghost predicate OneCallAtATime(sessions: Sessions) {
    && (forall j, k :: j in sessions && k in sessions && CarriesAudio(sessions[j]) && CarriesAudio(sessions[k]) ==> j == k)
    && (forall j, k :: j in sessions && k in sessions && SameLeg(sessions[j], sessions[k]) ==> j == k)
  }

  /** Then the order in which the map is walked plays no part. */
  lemma WalkOrderPlaysNoPart(sessions: Sessions, first: seq<string>, second: seq<string>, eventID: string)
    requires Enumerates(first, sessions) && Enumerates(second, sessions) && OneCallAtATime(sessions)
    ensures Lookup(sessions, first, eventID) == Lookup(sessions, second, eventID)
  {
    var o1, o2 := ByModemID(sessions, first, eventID), ByModemID(sessions, second, eventID);
    if o1.Some? {
      assert o1.value in second;
    }
    if o2.Some? {
      assert o2.value in first;
    }
    var a1, a2 := ByAudio(sessions, first), ByAudio(sessions, second);
    if a1.Some? {
      assert a1.value in second;
    }
    if a2.Some? {
      assert a2.value in first;
    }
  }

  /** Nothing that could be meant is missed. */
  lemma NothingFoundMeansNothingThere(sessions: Sessions, order: seq<string>, eventID: string)
    requires Enumerates(order, sessions)
    ensures Lookup(sessions, order, eventID).None? <==>
            && ("in-" + eventID in sessions ==> sessions["in-" + eventID].state.Ended?)
            && forall k :: k in sessions ==> !OwnsLeg(sessions[k], eventID) && !CarriesAudio(sessions[k])
  {
    assert forall k :: k in sessions ==> k in order;
  }
}
