/** Call events, the bounded queues they travel through, and the fan-out that
    gives every consumer its own queue. */
module ModemEvents {

  datatype Kind = Incoming | Ended | OtherKind

  datatype Event = Event(kind: Kind, callID: string, peer: string, raw: string)

  /** A send on a buffered channel that drops when the buffer is full. */
  function Offer(queue: seq<Event>, cap: nat, e: Event): seq<Event> {
    if |queue| < cap then queue + [e] else queue
  }

  /** One consumer: its buffer and what it has taken out of it. */
  datatype Sink = Sink(cap: nat, queue: seq<Event>, taken: seq<Event>, closed: bool) {
    function Got(): seq<Event> { taken + queue }

    /** The consumer takes up to n buffered events. */
    function Drain(n: nat): (s: Sink)
      ensures s.Got() == Got() && s.cap == cap && s.closed == closed
      ensures |s.queue| == if n < |queue| then |queue| - n else 0
    {
      var k := if n < |queue| then n else |queue|;
      assert queue == queue[..k] + queue[k..];
      this.(taken := taken + queue[..k], queue := queue[k..])
    }

    function Push(e: Event): Sink {
      this.(queue := Offer(queue, cap, e))
    }

    function Close(): Sink {
      this.(closed := true)
    }
  }

  /** One sink over a whole source; drains[i] is how many events its consumer has
      taken by the time the i-th one is offered. */
  function Deliver(s: Sink, src: seq<Event>, drains: seq<nat>): Sink
    requires |drains| == |src|
    decreases |src|
  {
    if src == [] then s else Deliver(s.Drain(drains[0]).Push(src[0]), src[1..], drains[1..])
  }

  /** Which events find room. */
  function Kept(s: Sink, src: seq<Event>, drains: seq<nat>): (mask: seq<bool>)
    requires |drains| == |src|
    ensures |mask| == |src|
    decreases |src|
  {
    if src == [] then []
    else [|s.Drain(drains[0]).queue| < s.cap] + Kept(s.Drain(drains[0]).Push(src[0]), src[1..], drains[1..])
  }

  function Masked(src: seq<Event>, mask: seq<bool>): seq<Event>
    requires |mask| == |src|
  {
    if src == [] then [] else (if mask[0] then [src[0]] else []) + Masked(src[1..], mask[1..])
  }

  function Dropped(mask: seq<bool>): nat {
    if mask == [] then 0 else (if mask[0] then 0 else 1) + Dropped(mask[1..])
  }

  /** The column of one sink in the table of drains. */
  function Column(drains: seq<seq<nat>>, j: nat): (c: seq<nat>)
    requires forall i :: 0 <= i < |drains| ==> j < |drains[i]|
    ensures |c| == |drains|
  {
    seq(|drains|, i requires 0 <= i < |drains| => drains[i][j])
  }

  /** Offers one event to every sink in turn. */
  method OfferToAll(e: Event, sinks: array<Sink>, row: seq<nat>)
    requires |row| == sinks.Length
    modifies sinks
    ensures forall j :: 0 <= j < sinks.Length ==> sinks[j] == old(sinks[j]).Drain(row[j]).Push(e)
  {
    for j := 0 to sinks.Length
      invariant forall k :: 0 <= k < j ==> sinks[k] == old(sinks[k]).Drain(row[k]).Push(e)
      invariant forall k :: j <= k < sinks.Length ==> sinks[k] == old(sinks[k])
    {
      sinks[j] := sinks[j].Drain(row[j]).Push(e);
    }
  }

  method CloseAll(sinks: array<Sink>)
    modifies sinks
    ensures forall j :: 0 <= j < sinks.Length ==> sinks[j] == old(sinks[j]).Close()
  {
    for j := 0 to sinks.Length
      invariant forall k :: 0 <= k < j ==> sinks[k] == old(sinks[k]).Close()
      invariant forall k :: j <= k < sinks.Length ==> sinks[k] == old(sinks[k])
    {
      sinks[j] := sinks[j].Close();
    }
  }

  /** Whether a sink still has to take src[i..] to end up where src takes it. */
  ghost predicate OnCourse(now: Sink, start: Sink, src: seq<Event>, drains: seq<nat>, i: nat)
    requires |drains| == |src| && i <= |src|
  {
    Deliver(now, src[i..], drains[i..]) == Deliver(start, src, drains)
  }

  lemma StaysOnCourse(now: Sink, start: Sink, src: seq<Event>, drains: seq<nat>, i: nat)
    requires |drains| == |src| && i < |src| && OnCourse(now, start, src, drains, i)
    ensures OnCourse(now.Drain(drains[i]).Push(src[i]), start, src, drains, i + 1)
  {
    assert src[i..][1..] == src[i + 1..] && drains[i..][1..] == drains[i + 1..];
  }

  /** Copies every event to every sink, then closes the sinks. drains[i][j] is how
      many events consumer j takes just before event i is offered to it. */
  method FanOut(src: seq<Event>, sinks: array<Sink>, drains: seq<seq<nat>>)
    requires |drains| == |src| && forall i :: 0 <= i < |src| ==> |drains[i]| == sinks.Length
    modifies sinks
    ensures forall j :: 0 <= j < sinks.Length ==> sinks[j] == Deliver(old(sinks[j]), src, Column(drains, j)).Close() && sinks[j].closed
  {
    hide Deliver;
    ghost var start := sinks[..];
    for i := 0 to |src|
      invariant forall j :: 0 <= j < sinks.Length ==> OnCourse(sinks[j], start[j], src, Column(drains, j), i)
    {
      ghost var before := sinks[..];
      OfferToAll(src[i], sinks, drains[i]);
      forall j | 0 <= j < sinks.Length
        ensures OnCourse(sinks[j], start[j], src, Column(drains, j), i + 1)
      {
        StaysOnCourse(before[j], start[j], src, Column(drains, j), i);
      }
    }
    forall j | 0 <= j < sinks.Length
      ensures sinks[j] == Deliver(start[j], src, Column(drains, j))
    {
      NothingLeft(sinks[j], start[j], src, Column(drains, j));
    }
    CloseAll(sinks);
  }

  lemma NothingLeft(now: Sink, start: Sink, src: seq<Event>, drains: seq<nat>)
    requires |drains| == |src| && OnCourse(now, start, src, drains, |src|)
    ensures now == Deliver(start, src, drains)
  {
  }

  /** What a sink gets is the source with the events that found no room left out,
      in order; nothing is lost without being counted; and a sink that always has
      room gets everything. Another sink's speed plays no part in it. */
  lemma {:induction false} SinkGetsItsOwnStream(s: Sink, src: seq<Event>, drains: seq<nat>)
    requires |drains| == |src|
    ensures var mask, after := Kept(s, src, drains), Deliver(s, src, drains);
            && after.Got() == s.Got() + Masked(src, mask)
            && |after.Got()| + Dropped(mask) == |s.Got()| + |src|
            && (Dropped(mask) == 0 <==> after.Got() == s.Got() + src)
            && (s.queue == [] && |src| <= s.cap ==> Dropped(mask) == 0)
  {
    RoomIsEnough(s, src, drains);
    DeliverMasks(s, src, drains);
    MaskCounts(src, Kept(s, src, drains));
  }

  lemma {:induction false} DeliverMasks(s: Sink, src: seq<Event>, drains: seq<nat>)
    requires |drains| == |src|
    ensures Deliver(s, src, drains).Got() == s.Got() + Masked(src, Kept(s, src, drains))
    decreases |src|
  {
    if src == [] {
    } else {
      var next := s.Drain(drains[0]).Push(src[0]);
      DeliverMasks(next, src[1..], drains[1..]);
      assert Kept(s, src, drains)[1..] == Kept(next, src[1..], drains[1..]);
      var head := if Kept(s, src, drains)[0] then [src[0]] else [];
      assert next.Got() == s.Got() + head;
    }
  }

  lemma {:induction false} MaskCounts(src: seq<Event>, mask: seq<bool>)
    requires |mask| == |src|
    ensures |Masked(src, mask)| + Dropped(mask) == |src|
    ensures Dropped(mask) == 0 <==> Masked(src, mask) == src
  {
    if src == [] {
    } else {
      MaskCounts(src[1..], mask[1..]);
      assert src == [src[0]] + src[1..];
    }
  }

  lemma {:induction false} RoomIsEnough(s: Sink, src: seq<Event>, drains: seq<nat>)
    requires |drains| == |src|
    ensures |s.queue| + |src| <= s.cap ==> Dropped(Kept(s, src, drains)) == 0
    decreases |src|
  {
    if src == [] {
    } else {
      var next := s.Drain(drains[0]).Push(src[0]);
      RoomIsEnough(next, src[1..], drains[1..]);
      assert Kept(s, src, drains)[1..] == Kept(next, src[1..], drains[1..]);
    }
  }
}
