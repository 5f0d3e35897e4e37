/** The circular sample buffer between the audio callbacks. */
module RingBuffer {

  /** The newest m elements of s. */
  function Newest<T>(s: seq<T>, m: nat): (r: seq<T>)
    ensures |r| == if |s| <= m then |s| else m
  {
    if |s| <= m then s else s[|s| - m..]
  }

  /** The elements between the read and the write position. */
  function Window<T>(buf: seq<T>, r: nat, w: nat): (s: seq<T>)
    requires r < |buf| && w < |buf|
    ensures |s| < |buf|
  {
    if r <= w then buf[r..w] else buf[r..] + buf[..w]
  }

  function Next(i: nat, capacity: nat): nat
    requires i < capacity
  {
    (i + 1) % capacity
  }

  lemma NextIs(i: nat, capacity: nat)
    requires i < capacity
    ensures Next(i, capacity) == if i + 1 == capacity then 0 else i + 1
  {
  }

  /** Storing one sample, the oldest one making room when the buffer is full. */
  lemma PushWindow<T>(buf: seq<T>, r: nat, w: nat, x: T)
    requires r < |buf| && w < |buf|
    ensures var next := Next(w, |buf|);
            var r' := if next == r then Next(r, |buf|) else r;
            Window(buf[w := x], r', next) == Newest(Window(buf, r, w) + [x], |buf| - 1)
  {
    NextIs(w, |buf|);
    NextIs(r, |buf|);
    var next := Next(w, |buf|);
    var r' := if next == r then Next(r, |buf|) else r;
    var all := Window(buf, r, w) + [x];
    assert |all| == |buf| <==> next == r;
    assert next != r ==> Window(buf[w := x], r', next) == all;
    assert next == r ==> Window(buf[w := x], r', next) == all[1..];
  }

  /** Taking the oldest sample. */
  lemma PopWindow<T>(buf: seq<T>, r: nat, w: nat)
    requires r < |buf| && w < |buf| && r != w
    ensures Window(buf, r, w) == [buf[r]] + Window(buf, Next(r, |buf|), w)
  {
    NextIs(r, |buf|);
  }

  /** Keeping the newest after every sample is keeping the newest at the end. */
  lemma NewestOfNewest<T>(s: seq<T>, t: seq<T>, m: nat)
    ensures Newest(Newest(s, m) + t, m) == Newest(s + t, m)
  {
  }

  lemma EmptyWindow<T>(buf: seq<T>, r: nat)
    requires r < |buf|
    ensures Window(buf, r, r) == []
  {
  }

  lemma NothingDropped<T>(s: seq<T>, m: nat)
    requires |s| <= m
    ensures Newest(s, m) == s
  {
  }

  class Ring<T(0)> {
    const buf: array<T>
    var r: nat
    var w: nat

    ghost predicate Valid()
      reads this
    {
      r < buf.Length && w < buf.Length
    }

    ghost function Contents(): seq<T>
      requires Valid()
      reads this, buf
    {
      Window(buf[..], r, w)
    }

    constructor (capacity: nat)
      requires capacity > 0
      ensures Valid() && fresh(buf) && buf.Length == capacity && Contents() == []
    {
      buf := new T[capacity];
      r, w := 0, 0;
    }

    /** Stores all of data; of the samples then unread the newest Length - 1 stay. */
    method Write(data: seq<T>)
      requires Valid()
      modifies this, buf
      ensures Valid() && Contents() == Newest(old(Contents()) + data, buf.Length - 1)
    {
      hide Window, Newest, Next;
      ghost var start := Contents();
      assert start + data[..0] == start;
      NothingDropped(start, buf.Length - 1);
      for i := 0 to |data|
        invariant Valid() && Contents() == Newest(start + data[..i], buf.Length - 1)
      {
        PushWindow(buf[..], r, w, data[i]);
        NewestOfNewest(start + data[..i], [data[i]], buf.Length - 1);
        NextIs(w, buf.Length);
        NextIs(r, buf.Length);
        assert start + data[..i + 1] == start + data[..i] + [data[i]];
        var next := Next(w, buf.Length);
        ghost var before := buf[..];
        if next == r {
          r := Next(r, buf.Length);
        }
        buf[w] := data[i];
        assert buf[..] == before[w := data[i]];
        w := next;
      }
      assert data[..|data|] == data;
    }

    /** Takes up to n of the oldest samples into out. */
    method Read(out: array<T>, n: nat) returns (got: nat)
      requires Valid() && n <= out.Length && out != buf
      modifies this, out
      ensures Valid() && got == (if n <= |old(Contents())| then n else |old(Contents())|)
      ensures out[..got] == old(Contents())[..got] && Contents() == old(Contents())[got..]
      ensures out[got..] == old(out[got..])
    {
      hide Window, Next;
      got := 0;
      ghost var start := Contents();
      while got < n && r != w
        invariant Valid() && got <= n && got <= |start| && w == old(w) && buf[..] == old(buf[..])
        invariant Contents() == start[got..]
        invariant out[..got] == start[..got]
        invariant forall k :: got <= k < out.Length ==> out[k] == old(out[k])
        decreases n - got
      {
        PopWindow(buf[..], r, w);
        NextIs(r, buf.Length);
        ghost var taken := out[..got];
        out[got] := buf[r];
        r := Next(r, buf.Length);
        got := got + 1;
        assert out[..got] == taken + [start[got - 1]];
      }
      if r == w {
        EmptyWindow(buf[..], r);
      }
    }
  }

  // ---------------------------------------------------------------- a bounded queue

  datatype Op<T> = Put(data: seq<T>) | Take(n: nat)

  /** A run as the reader and the writer see it: what is unread, everything ever
      written, and where in that every sample delivered came from. */
  datatype Queue<T> = Queue(unread: seq<T>, written: seq<T>, delivered: seq<T>, origins: seq<nat>)

  /** The two methods' effect on the unread samples. */
  function Step<T>(q: Queue<T>, op: Op<T>, m: nat): Queue<T> {
    match op
    case Put(data) => q.(unread := Newest(q.unread + data, m), written := q.written + data)
    case Take(n) =>
      var got := if n <= |q.unread| then n else |q.unread|;
      var first := |q.written| - |q.unread|;
      q.(unread := q.unread[got..], delivered := q.delivered + q.unread[..got],
         origins := q.origins + Positions(if first >= 0 then first else 0, got))
  }

  /** first, first + 1, ... */
  function Positions(first: nat, n: nat): (r: seq<nat>)
    ensures |r| == n && forall i :: 0 <= i < n ==> r[i] == first + i
  {
    seq(n, i => first + i)
  }

  function Run<T>(q: Queue<T>, ops: seq<Op<T>>, m: nat): Queue<T> {
    if ops == [] then q else Step(Run(q, ops[..|ops| - 1], m), ops[|ops| - 1], m)
  }

  ghost predicate Increasing(s: seq<nat>) {
    forall i, j :: 0 <= i < j < |s| ==> s[i] < s[j]
  }

  /** A sample neither unread nor delivered was pushed out by m newer ones. */
  ghost predicate OnlyOldestLost<T>(q: Queue<T>, m: nat) {
    forall p: nat :: p < |q.written| - |q.unread| && p !in q.origins ==> p + m < |q.written|
  }

  /** In every run of writes and reads of any sizes: what is unread is the newest
      part of what was written, at most m samples; every sample delivered is one
      that was written, delivered once and in the order of writing; and a sample is
      only lost to make room for m newer ones. */
  ghost predicate Faithful<T>(q: Queue<T>, m: nat) {
    && |q.unread| <= m && |q.unread| <= |q.written|
    && q.unread == q.written[|q.written| - |q.unread|..]
    && |q.origins| == |q.delivered| && Increasing(q.origins)
    && (forall i :: 0 <= i < |q.origins| ==> q.origins[i] < |q.written| - |q.unread| && q.delivered[i] == q.written[q.origins[i]])
    && OnlyOldestLost(q, m)
  }

  lemma StepStaysFaithful<T>(q: Queue<T>, op: Op<T>, m: nat)
    requires Faithful(q, m)
    ensures Faithful(Step(q, op, m), m)
    ensures op.Put? ==> |Step(q, op, m).unread| == if |q.unread| + |op.data| <= m then |q.unread| + |op.data| else m
  {
    match op
    case Put(data) => PutStaysFaithful(q, data, m);
    case Take(n) => TakeStaysFaithful(q, n, m);
  }

  lemma PutStaysFaithful<T>(q: Queue<T>, data: seq<T>, m: nat)
    requires Faithful(q, m)
    ensures Faithful(Step(q, Put(data), m), m)
  {
    hide Increasing, OnlyOldestLost;
    PutLosesOldest(q, data, m);
    var s := Step(q, Put(data), m);
    assert q.unread + data == s.written[|q.written| - |q.unread|..];
    assert forall i :: 0 <= i < |q.written| ==> s.written[i] == q.written[i];
  }

  lemma TakeStaysFaithful<T>(q: Queue<T>, n: nat, m: nat)
    requires Faithful(q, m)
    ensures Faithful(Step(q, Take(n), m), m)
  {
    hide Increasing, Positions, OnlyOldestLost;
    TakeLosesNothing(q, n, m);
    var s := Step(q, Take(n), m);
    var got := |q.unread| - |s.unread|;
    var first := |q.written| - |q.unread|;
    IncreasingMore(q.origins, first, got);
    assert s.unread == s.written[first + got..];
    forall i | |q.origins| <= i < |s.origins|
      ensures s.origins[i] < first + got && s.delivered[i] == s.written[s.origins[i]]
    {
      assert s.origins[i] == first + (i - |q.origins|);
      assert s.delivered[i] == q.unread[i - |q.origins|];
    }
  }

  lemma PutLosesOldest<T>(q: Queue<T>, data: seq<T>, m: nat)
    requires Faithful(q, m)
    ensures OnlyOldestLost(Step(q, Put(data), m), m)
  {
    hide Increasing;
    var s := Step(q, Put(data), m);
    forall p: nat | p < |s.written| - |s.unread| && p !in s.origins
      ensures p + m < |s.written|
    {
      if |s.unread| < m {
        assert |s.written| - |s.unread| == |q.written| - |q.unread|;
      }
    }
  }

  lemma TakeLosesNothing<T>(q: Queue<T>, n: nat, m: nat)
    requires Faithful(q, m)
    ensures OnlyOldestLost(Step(q, Take(n), m), m)
  {
    hide Increasing, Positions;
    var s := Step(q, Take(n), m);
    var first := |q.written| - |q.unread|;
    forall p: nat | first <= p < |s.written| - |s.unread|
      ensures p in s.origins
    {
      assert s.origins[|q.origins| + (p - first)] == p;
    }
    forall p | p in q.origins
      ensures p in s.origins
    {
      var i :| 0 <= i < |q.origins| && q.origins[i] == p;
      assert s.origins[i] == p;
    }
  }

  lemma IncreasingMore(origins: seq<nat>, first: nat, n: nat)
    requires Increasing(origins) && forall i :: 0 <= i < |origins| ==> origins[i] < first
    ensures Increasing(origins + Positions(first, n))
  {
    hide Positions;
  }

  lemma {:induction false} RunIsFaithful<T>(ops: seq<Op<T>>, m: nat)
    ensures Faithful(Run(Queue([], [], [], []), ops, m), m)
  {
    if ops == [] {
      assert Run(Queue([], [], [], []), ops, m) == Queue([], [], [], []);
    } else {
      RunIsFaithful(ops[..|ops| - 1], m);
      StepStaysFaithful(Run(Queue([], [], [], []), ops[..|ops| - 1], m), ops[|ops| - 1], m);
    }
  }
}
