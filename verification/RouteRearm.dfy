/** The script that gives every call a fresh audio route: it replays the gateway's
    log in batches and decides after each batch whether to re-arm the route. */
module RouteRearm {

  /** A log line that matters; now is the clock when the line is replayed. */
  datatype Event = Start | End(now: int)

  /** New log lines, and how a re-arm at their end turns out. */
  datatype Batch = Batch(events: seq<Event>, ok: bool, at: int)

  datatype Watch = Watch(pending: bool, seenStart: bool, lastRearm: int)

  datatype Action = Nothing | BeforeTheCall | AfterTheCall

  // ---------------------------------------------------------------- one batch

  ghost predicate EndsInStart(log: seq<Event>) {
    |log| > 0 && log[|log| - 1].Start?
  }

  ghost predicate HasEnd(log: seq<Event>) {
    exists i :: 0 <= i < |log| && log[i].End?
  }

  /** Whether the line before event i is a start; seen stands for the line before
      the batch. */
  ghost predicate StartJustBefore(seen: bool, events: seq<Event>, i: nat)
    requires i <= |events|
  {
    if i == 0 then seen else events[i - 1].Start?
  }

  /** The call that ends at event i used up the route. */
  ghost predicate UsesUp(w: Watch, events: seq<Event>, i: nat, coalesce: int)
    requires i < |events|
  {
    && events[i].End?
    && (StartJustBefore(w.seenStart, events, i) || w.lastRearm == 0 || events[i].now - w.lastRearm >= coalesce)
  }

  /** The call that starts at event i finds a used route. */
  ghost predicate StartsStale(w: Watch, events: seq<Event>, i: nat)
    requires i < |events|
  {
    events[i].Start? && (w.pending || HasEnd(events[..i]))
  }

  /** Among the first n events there is a call that starts on a used route. */
  ghost predicate NeedsNow(w: Watch, events: seq<Event>, n: nat)
    requires n <= |events|
  {
    exists i :: 0 <= i < n && StartsStale(w, events, i)
  }

  /** Among the first n events there is an end that used the route up. */
  ghost predicate NeedsAfter(w: Watch, events: seq<Event>, n: nat, coalesce: int)
    requires n <= |events|
  {
    exists i :: 0 <= i < n && UsesUp(w, events, i, coalesce)
  }

  ghost function Decide(w: Watch, events: seq<Event>, coalesce: int): Action {
    if NeedsNow(w, events, |events|) then BeforeTheCall
    else if NeedsAfter(w, events, |events|, coalesce) then AfterTheCall
    else Nothing
  }

  ghost function Rearmed(w: Watch, ok: bool, at: int): Watch {
    if ok then w.(pending := false, lastRearm := at) else w.(pending := true)
  }

  ghost function Step(w: Watch, b: Batch, coalesce: int): Watch {
    var replayed := w.(pending := w.pending || HasEnd(b.events),
                       seenStart := StartJustBefore(w.seenStart, b.events, |b.events|));
    if Decide(w, b.events, coalesce) == Nothing then replayed else Rearmed(replayed, b.ok, b.at)
  }

  class Rearmer {
    const coalesce: int
    var pending: bool
    var seenStart: bool
    var lastRearm: int

    ghost function State(): Watch
      reads this
    {
      Watch(pending, seenStart, lastRearm)
    }

    /** Starts with the re-arm that serves the first call. */
    constructor (coalesce: int, ok: bool, at: int)
      ensures this.coalesce == coalesce
      ensures State() == Rearmed(Watch(false, false, 0), ok, at)
    {
      this.coalesce := coalesce;
      pending, seenStart, lastRearm := false, false, 0;
      new;
      Rearm(ok, at);
    }

    /** ok says whether the route tool reported a process; at is the time then. */
    method Rearm(ok: bool, at: int)
      modifies this
      ensures State() == Rearmed(old(State()), ok, at)
    {
      if ok {
        pending := false;
        lastRearm := at;
      } else {
        pending := true;
      }
    }

    /** Replays a batch line by line, then acts at most once. */
    method Replay(b: Batch) returns (action: Action)
      modifies this
      ensures action == Decide(old(State()), b.events, coalesce)
      ensures State() == Step(old(State()), b, coalesce)
    {
      hide NeedsNow, NeedsAfter, HasEnd;
      ghost var w := State();
      NothingYet(w, b.events, coalesce);
      var needNow, needAfter := false, false;
      for i := 0 to |b.events|
        invariant lastRearm == w.lastRearm
        invariant pending <==> w.pending || HasEnd(b.events[..i])
        invariant seenStart <==> StartJustBefore(w.seenStart, b.events, i)
        invariant needNow <==> NeedsNow(w, b.events, i)
        invariant needAfter <==> NeedsAfter(w, b.events, i, coalesce)
      {
        EndsGrow(b.events, i);
        NeedsGrow(w, b.events, i, coalesce);
        match b.events[i]
        case End(now) =>
          if seenStart {
            needAfter := true;
          } else if lastRearm == 0 || now - lastRearm >= coalesce {
            needAfter := true;
          }
          seenStart := false;
          pending := true;
        case Start =>
          seenStart := true;
          if pending {
            needNow := true;
          }
      }
      assert b.events[..|b.events|] == b.events;
      if needNow {
        action := BeforeTheCall;
        Rearm(b.ok, b.at);
      } else if needAfter {
        action := AfterTheCall;
        Rearm(b.ok, b.at);
      } else {
        action := Nothing;
      }
    }
  }

  lemma EndsGrow(log: seq<Event>, i: nat)
    requires i < |log|
    ensures HasEnd(log[..i + 1]) <==> HasEnd(log[..i]) || log[i].End?
  {
    assert log[..i + 1] == log[..i] + [log[i]];
    if log[i].End? {
      assert log[..i + 1][i].End?;
    }
    if HasEnd(log[..i]) {
      var k :| 0 <= k < i && log[..i][k].End?;
      assert log[..i + 1][k].End?;
    }
  }

  lemma NeedsGrow(w: Watch, events: seq<Event>, i: nat, coalesce: int)
    requires i < |events|
    ensures NeedsNow(w, events, i + 1) <==> NeedsNow(w, events, i) || StartsStale(w, events, i)
    ensures NeedsAfter(w, events, i + 1, coalesce) <==> NeedsAfter(w, events, i, coalesce) || UsesUp(w, events, i, coalesce)
  {
  }

  lemma NothingYet(w: Watch, events: seq<Event>, coalesce: int)
    ensures !HasEnd(events[..0]) && !NeedsNow(w, events, 0) && !NeedsAfter(w, events, 0, coalesce)
  {
  }

  // ---------------------------------------------------------------- whole runs

  /** The script from its cold start on; cold is the outcome of the first re-arm. */
  ghost function Run(cold: Batch, batches: seq<Batch>, coalesce: int): Watch {
    if batches == [] then Rearmed(Watch(false, false, 0), cold.ok, cold.at)
    else Step(Run(cold, batches[..|batches| - 1], coalesce), batches[|batches| - 1], coalesce)
  }

  /** The log the batches are cut from. */
  ghost function Log(batches: seq<Batch>): seq<Event> {
    if batches == [] then [] else Log(batches[..|batches| - 1]) + batches[|batches| - 1].events
  }

  ghost function ActionAt(cold: Batch, batches: seq<Batch>, coalesce: int, k: nat): Action
    requires k < |batches|
  {
    Decide(Run(cold, batches[..k], coalesce), batches[k].events, coalesce)
  }

  ghost predicate RefreshedAt(cold: Batch, batches: seq<Batch>, coalesce: int, k: nat)
    requires k < |batches|
  {
    ActionAt(cold, batches, coalesce, k) != Nothing && batches[k].ok
  }

  ghost predicate NotRefreshed(cold: Batch, batches: seq<Batch>, coalesce: int, from: nat)
    requires from <= |batches|
  {
    forall l :: from <= l < |batches| ==> !RefreshedAt(cold, batches, coalesce, l)
  }

  lemma StepAt(cold: Batch, batches: seq<Batch>, coalesce: int, k: nat)
    requires k < |batches|
    ensures Run(cold, batches[..k + 1], coalesce) == Step(Run(cold, batches[..k], coalesce), batches[k], coalesce)
    ensures Log(batches[..k + 1]) == Log(batches[..k]) + batches[k].events
  {
    assert batches[..k + 1][..k] == batches[..k];
  }

  /** What the script remembers of a start is a fact about the log alone: its last
      event is a start. How the log was cut into batches, and which re-arms worked,
      plays no part. */
  lemma {:induction false} SeenStartReadsTheLog(cold: Batch, batches: seq<Batch>, coalesce: int)
    ensures Run(cold, batches, coalesce).seenStart <==> EndsInStart(Log(batches))
  {
    if batches == [] {
    } else {
      SeenStartReadsTheLog(cold, batches[..|batches| - 1], coalesce);
    }
  }

  /** An end whose start was seen, in whatever batch the start came, is followed by
      a re-arm at the end of its own batch; if that works, the route is fresh. */
  lemma SeenEndIsServed(cold: Batch, batches: seq<Batch>, coalesce: int, k: nat, i: nat)
    requires k < |batches| && i < |batches[k].events| && batches[k].events[i].End?
    requires EndsInStart(Log(batches[..k]) + batches[k].events[..i])
    ensures ActionAt(cold, batches, coalesce, k) != Nothing
    ensures batches[k].ok ==> !Run(cold, batches[..k + 1], coalesce).pending
  {
    var w := Run(cold, batches[..k], coalesce);
    SeenStartReadsTheLog(cold, batches[..k], coalesce);
    StepAt(cold, batches, coalesce, k);
    assert UsesUp(w, batches[k].events, i, coalesce);
  }

  /** A call ended after the last re-arm that worked, or none has worked yet. */
  ghost predicate Used(cold: Batch, batches: seq<Batch>, coalesce: int) {
    || (!cold.ok && NotRefreshed(cold, batches, coalesce, 0))
    || exists j :: 0 <= j < |batches| && HasEnd(batches[j].events) && NotRefreshed(cold, batches, coalesce, j)
  }

  lemma NotRefreshedGrows(cold: Batch, batches: seq<Batch>, coalesce: int, from: nat)
    requires from < |batches|
    ensures NotRefreshed(cold, batches, coalesce, from) <==>
            && NotRefreshed(cold, batches[..|batches| - 1], coalesce, from)
            && !RefreshedAt(cold, batches, coalesce, |batches| - 1)
  {
    hide Decide, Run;
    var n := |batches| - 1;
    var before := batches[..n];
    forall l | from <= l < n
      ensures RefreshedAt(cold, batches, coalesce, l) <==> RefreshedAt(cold, before, coalesce, l)
    {
      assert before[..l] == batches[..l];
    }
  }

  lemma UsedGrows(cold: Batch, batches: seq<Batch>, coalesce: int)
    requires batches != []
    ensures Used(cold, batches, coalesce) <==>
            && (Used(cold, batches[..|batches| - 1], coalesce) || HasEnd(batches[|batches| - 1].events))
            && !RefreshedAt(cold, batches, coalesce, |batches| - 1)
  {
    hide RefreshedAt, NotRefreshed, HasEnd;
    var n := |batches| - 1;
    var before := batches[..n];
    forall j | 0 <= j <= n
      ensures NotRefreshed(cold, batches, coalesce, j) <==>
              NotRefreshed(cold, before, coalesce, j) && !RefreshedAt(cold, batches, coalesce, n)
    {
      NotRefreshedGrows(cold, batches, coalesce, j);
    }
    assert NotRefreshed(cold, before, coalesce, n) by {
      NoneAfter(cold, before, coalesce);
    }
    if HasEnd(batches[n].events) {
      assert HasEnd(batches[n].events) && NotRefreshed(cold, before, coalesce, n);
    }
    forall j | 0 <= j < n
      ensures before[j] == batches[j]
    {
    }
  }

  lemma NoneAfter(cold: Batch, batches: seq<Batch>, coalesce: int)
    ensures NotRefreshed(cold, batches, coalesce, |batches|)
  {
  }

  /** The script's mark says exactly that the route is used. */
  lemma {:induction false} PendingMeansUsed(cold: Batch, batches: seq<Batch>, coalesce: int)
    ensures Run(cold, batches, coalesce).pending <==> Used(cold, batches, coalesce)
  {
    hide HasEnd, Decide, Used;
    if batches == [] {
      UsedAtFirst(cold, batches, coalesce);
    } else {
      var n := |batches| - 1;
      PendingMeansUsed(cold, batches[..n], coalesce);
      UsedGrows(cold, batches, coalesce);
      ActingMeansUsed(Run(cold, batches[..n], coalesce), batches[n].events, coalesce);
    }
  }

  lemma UsedAtFirst(cold: Batch, batches: seq<Batch>, coalesce: int)
    requires batches == []
    ensures Used(cold, batches, coalesce) <==> !cold.ok
  {
  }

  /** Only a used route is re-armed. */
  lemma ActingMeansUsed(w: Watch, events: seq<Event>, coalesce: int)
    ensures Decide(w, events, coalesce) != Nothing ==> w.pending || HasEnd(events)
  {
    if NeedsNow(w, events, |events|) && !w.pending {
      var i :| 0 <= i < |events| && StartsStale(w, events, i);
      var k :| 0 <= k < i && events[..i][k].End?;
      assert events[k].End?;
    }
  }

  /** A batch is refreshed ahead of a call exactly when one of its calls starts on a
      route that an earlier call used, however early that call ended: an end the
      coalescing window passed over is made up for when the next call starts. */
  lemma StaleStartIsServed(cold: Batch, batches: seq<Batch>, coalesce: int, k: nat)
    requires k < |batches|
    ensures ActionAt(cold, batches, coalesce, k) == BeforeTheCall <==>
            exists i :: 0 <= i < |batches[k].events| && batches[k].events[i].Start?
                        && (Used(cold, batches[..k], coalesce) || HasEnd(batches[k].events[..i]))
  {
    var w := Run(cold, batches[..k], coalesce);
    PendingMeansUsed(cold, batches[..k], coalesce);
    hide Used, HasEnd, Run;
    forall i | 0 <= i < |batches[k].events|
      ensures StartsStale(w, batches[k].events, i) <==>
              batches[k].events[i].Start? && (Used(cold, batches[..k], coalesce) || HasEnd(batches[k].events[..i]))
    {
    }
  }

  /** After a batch with events, a used route and a call on it stand side by side
      exactly when the log ends in a start and the batch's own re-arm failed. */
  lemma UsedRouteUnderACall(cold: Batch, batches: seq<Batch>, coalesce: int, k: nat)
    requires k < |batches| && batches[k].events != []
    ensures var w := Run(cold, batches[..k + 1], coalesce);
            w.pending && w.seenStart <==>
            EndsInStart(Log(batches[..k + 1])) && ActionAt(cold, batches, coalesce, k) != Nothing && !batches[k].ok
  {
    SeenStartReadsTheLog(cold, batches[..k + 1], coalesce);
    StepAt(cold, batches, coalesce, k);
    var w, events := Run(cold, batches[..k], coalesce), batches[k].events;
    var last := |events| - 1;
    if events[last].Start? && (w.pending || HasEnd(events)) {
      EndsGrow(events, last);
      assert events[..last + 1] == events;
      assert StartsStale(w, events, last);
    }
    ActingMeansUsed(w, events, coalesce);
  }

  /** One batch with a whole call and the start of the next, its re-arm failing: the
      next call runs on the used route. */
  lemma FailedRearmUnderACall()
    ensures Run(Batch([], true, 1), [Batch([Start, End(10), Start], false, 10)], 8) == Watch(true, true, 1)
  {
    hide NeedsNow, NeedsAfter, HasEnd, Decide;
    var cold, batch := Batch([], true, 1), Batch([Start, End(10), Start], false, 10);
    var w := Watch(false, false, 1);
    assert [batch][..0] == [];
    EndIsThere(batch.events, 1);
    EndIsThere(batch.events[..2], 1);
    StaleStartDecides(w, batch.events, 2, 8);
    assert Run(cold, [batch], 8) == Step(w, batch, 8);
  }

  lemma EndIsThere(log: seq<Event>, i: nat)
    requires i < |log| && log[i].End?
    ensures HasEnd(log)
  {
  }

  lemma StaleStartDecides(w: Watch, events: seq<Event>, i: nat, coalesce: int)
    requires i < |events| && StartsStale(w, events, i)
    ensures Decide(w, events, coalesce) == BeforeTheCall
  {
  }

  /** As long as re-arms work, no batch leaves a used route under a call. */
  lemma {:induction false} NoCallOnAUsedRoute(cold: Batch, batches: seq<Batch>, coalesce: int)
    requires forall k :: 0 <= k < |batches| ==> batches[k].ok
    ensures !(Run(cold, batches, coalesce).pending && Run(cold, batches, coalesce).seenStart)
  {
    if batches == [] {
    } else {
      var n := |batches| - 1;
      assert batches[..n + 1] == batches;
      if batches[n].events == [] {
        NoCallOnAUsedRoute(cold, batches[..n], coalesce);
      } else {
        UsedRouteUnderACall(cold, batches, coalesce, n);
      }
    }
  }

  /** The clock at event i is less than coalesce past a re-arm that worked. */
  ghost predicate InWindow(lastRearm: int, events: seq<Event>, i: nat, coalesce: int)
    requires i < |events| && events[i].End?
  {
    lastRearm != 0 && events[i].now - lastRearm < coalesce
  }

  /** A batch of ends whose starts were not seen is passed over exactly when all of
      them fall inside the window. */
  lemma RepeatedEndsAreQuiet(cold: Batch, batches: seq<Batch>, coalesce: int, k: nat)
    requires k < |batches| && !EndsInStart(Log(batches[..k]))
    requires forall i :: 0 <= i < |batches[k].events| ==> batches[k].events[i].End?
    ensures var last := Run(cold, batches[..k], coalesce).lastRearm;
            ActionAt(cold, batches, coalesce, k) == Nothing <==>
            forall i :: 0 <= i < |batches[k].events| ==> InWindow(last, batches[k].events, i, coalesce)
  {
    var w, events := Run(cold, batches[..k], coalesce), batches[k].events;
    hide Run, Log;
    SeenStartReadsTheLog(cold, batches[..k], coalesce);
    forall i | 0 <= i < |events|
      ensures !StartsStale(w, events, i)
      ensures UsesUp(w, events, i, coalesce) <==> !InWindow(w.lastRearm, events, i, coalesce)
    {
      assert i > 0 ==> events[i - 1].End?;
    }
    assert !NeedsNow(w, events, |events|);
    hide UsesUp, InWindow, StartsStale, NeedsNow;
    if NeedsAfter(w, events, |events|, coalesce) {
      var i :| 0 <= i < |events| && UsesUp(w, events, i, coalesce);
      assert !InWindow(w.lastRearm, events, i, coalesce);
    } else {
      forall i | 0 <= i < |events|
        ensures InWindow(w.lastRearm, events, i, coalesce)
      {
        assert !UsesUp(w, events, i, coalesce);
      }
    }
  }
}
