/**
 Overlapping drains come to one: what is dispatched, in which order, and what is flagged depend only on the order
 the messages were fetched in (packages/gateway-email/src/adapter.ts and src/seen-uids.ts).
 */
module EmailOrder {
  import opened Options
  import opened SeenUids
  import opened Email

  // ---- one drain for all ----

  /** How many UIDs the set holds after `n` dispatches: one more each time, and 4001 after 5000. */
  function SizeAfter(n: nat): (r: nat)
    ensures r <= n && r <= 5000
  {
    if n == 0 then 0 else if SizeAfter(n - 1) == 5000 then 4001 else SizeAfter(n - 1) + 1
  }

  lemma {:induction false} SizesRepeat(n: nat)
    ensures SizeAfter(n) == if n <= 5000 then n else 4001 + (n - 5001) % 1000
  {
    if n > 0 {
      SizesRepeat(n - 1);
    }
  }

  function Remembered(dispatched: seq<int>): seq<int> {
    dispatched[|dispatched| - SizeAfter(|dispatched|)..]
  }

  /** One message at a time: dispatched unless it is among the remembered ones. */
  function Served(dispatched: seq<int>, uids: seq<int>): seq<int>
    decreases |uids|
  {
    if uids == [] then dispatched
    else Served(if uids[0] in Remembered(dispatched) then dispatched else dispatched + [uids[0]], uids[1..])
  }

  /** What event `e` fetches. */
  function Fetches(e: Event): seq<int> {
    if e.Drain? then e.uids else []
  }

  /** The UIDs in the order they were fetched. */
  function Arrivals(events: seq<Event>): seq<int> {
    if events == [] then []
    else Fetches(events[0]) + Arrivals(events[1..])
  }

  function Queued(queue: seq<Job>): seq<int> {
    if queue == [] then [] else (if queue[0].Dispatch? then [queue[0].uid] else []) + Queued(queue[1..])
  }

  lemma {:induction false} ServedAppend(dispatched: seq<int>, a: seq<int>, b: seq<int>)
    ensures Served(dispatched, a + b) == Served(Served(dispatched, a), b)
    decreases |a|
  {
    if a == [] {
      assert a + b == b;
    } else {
      assert (a + b)[0] == a[0] && (a + b)[1..] == a[1..] + b;
      ServedAppend(if a[0] in Remembered(dispatched) then dispatched else dispatched + [a[0]], a[1..], b);
    }
  }

  lemma {:induction false} QueuedAppend(a: seq<Job>, b: seq<Job>)
    ensures Queued(a + b) == Queued(a) + Queued(b)
  {
    if a == [] {
      assert a + b == b;
    } else {
      assert (a + b)[0] == a[0] && (a + b)[1..] == a[1..] + b;
      QueuedAppend(a[1..], b);
    }
  }

  lemma {:induction false} QueuedBatch(uids: seq<int>)
    ensures Queued(Dispatches(uids) + [Flush]) == uids
  {
    QueuedDispatches(uids);
    QueuedAppend(Dispatches(uids), [Flush]);
    assert [Flush][1..] == [] && Queued([Flush]) == [];
  }

  lemma {:induction false} QueuedDispatches(uids: seq<int>)
    ensures Queued(Dispatches(uids)) == uids
  {
    if uids != [] {
      QueuedDispatches(uids[1..]);
      assert Dispatches(uids)[1..] == Dispatches(uids[1..]);
    }
  }

  // ---- the set's size ----

  /** Adding a new UID keeps the newest `kept` and puts it behind them. */
  lemma {:induction false} AddedTo(seen: seq<int>, kept: seq<int>, uid: int)
    requires |seen| <= 5000 && uid !in seen
    requires kept == if |seen| == 5000 then seen[1000..] else seen
    ensures Added(seen, uid) == kept + [uid]
  {
    assert forall i :: 0 <= i < |kept| ==> kept[i] in seen;
  }

  lemma {:induction false} TailOfTail(d: seq<int>, seen: seq<int>, from: nat)
    requires from <= |d| && seen == d[from..]
    ensures forall k :: 0 <= k <= |seen| ==> seen[k..] == d[from + k..]
  {
  }

  lemma {:induction false} OneMore(d: seq<int>, from: nat, uid: int)
    requires from <= |d|
    ensures (d + [uid])[from..] == d[from..] + [uid]
  {
  }

  lemma {:induction false} SetFollows(dispatched: seq<int>, uid: int)
    requires uid !in Remembered(dispatched)
    ensures Added(Remembered(dispatched), uid) == Remembered(dispatched + [uid])
  {
    var seen, from := Remembered(dispatched), |dispatched| - SizeAfter(|dispatched|);
    var drop := if |seen| == 5000 then 1000 else 0;
    TailOfTail(dispatched, seen, from);
    AddedTo(seen, seen[drop..], uid) by { assert seen[0..] == seen; }
    OneMore(dispatched, from + drop, uid);
    NewSize(dispatched, uid, from + drop);
  }

  lemma {:induction false} NewSize(dispatched: seq<int>, uid: int, from: nat)
    requires from == |dispatched| - SizeAfter(|dispatched|) + (if SizeAfter(|dispatched|) == 5000 then 1000 else 0)
    ensures from <= |dispatched| && Remembered(dispatched + [uid]) == (dispatched + [uid])[from..]
  {
    assert |dispatched + [uid]| == |dispatched| + 1;
  }

  // ---- the machine serves as one drain would ----

  ghost predicate Remembers(s: State) {
    s.seen == Remembered(s.dispatched)
  }

  lemma {:induction false} NextServes(s: State)
    requires Remembers(s) && Enabled(s, NextJob)
    ensures var t := Step(s, NextJob);
            Remembers(t) && Served(t.dispatched, Queued(t.queue)) == Served(s.dispatched, Queued(s.queue))
  {
    var all, rest := Queued(s.queue), Queued(s.queue[1..]);
    if s.queue[0].Dispatch? {
      var uid := s.queue[0].uid;
      assert all[0] == uid && all[1..] == rest;
      if uid !in s.seen { SetFollows(s.dispatched, uid); }
    } else {
      assert all == rest;
    }
  }

  lemma {:induction false} DrainServes(s: State, uids: seq<int>)
    ensures var t := Step(s, Drain(uids));
            t.dispatched == s.dispatched && t.seen == s.seen && Queued(t.queue) == Queued(s.queue) + uids
  {
    QueuedBatch(uids);
    QueuedAppend(s.queue, Dispatches(uids) + [Flush]);
    assert s.queue + Dispatches(uids) + [Flush] == s.queue + (Dispatches(uids) + [Flush]);
  }

  lemma {:induction false} StepServes(s: State, e: Event, more: seq<int>)
    requires Remembers(s) && Enabled(s, e)
    ensures var t := Step(s, e);
            Remembers(t)
            && Served(t.dispatched, Queued(t.queue) + more)
               == Served(s.dispatched, Queued(s.queue) + (Fetches(e) + more))
  {
    var t := Step(s, e);
    if e.Drain? {
      DrainServes(s, e.uids);
      assert Queued(s.queue) + e.uids + more == Queued(s.queue) + (e.uids + more);
    } else {
      assert [] + more == more;
      if e.NextJob? { NextServes(s); }
      ServedAppend(s.dispatched, Queued(s.queue), more);
      ServedAppend(t.dispatched, Queued(t.queue), more);
    }
  }

  lemma {:induction false} RunsServe(s: State, events: seq<Event>)
    requires Remembers(s) && Possible(s, events)
    ensures var t := After(s, events);
            Remembers(t)
            && Served(t.dispatched, Queued(t.queue)) == Served(s.dispatched, Queued(s.queue) + Arrivals(events))
    decreases |events|
  {
    if events == [] {
      assert Queued(s.queue) + [] == Queued(s.queue);
    } else {
      StepServes(s, events[0], Arrivals(events[1..]));
      RunsServe(Step(s, events[0]), events[1..]);
    }
  }

  /**
   However drains, dispatches and flushes interleave: the dispatches so far, and those the queue still holds, are
   those of one drain that fetched everything in the same order; the set remembers the latest of them.
   */
  lemma {:induction false} OverlapIsSerial(events: seq<Event>, s: State)
    requires Reached(events, s)
    ensures Served(s.dispatched, Queued(s.queue)) == Served([], Arrivals(events))
    ensures s.queue == [] ==> s.dispatched == Served([], Arrivals(events))
    ensures s.seen == Remembered(s.dispatched)
  {
    assert Remembers(INITIAL);
    RunsServe(INITIAL, events);
    assert Queued([]) + Arrivals(events) == Arrivals(events);
  }

  // ---- flagged ----

  ghost predicate Flagging(s: State) {
    s.requested == s.flagged + (if s.running.Flushing? then s.running.uids else {})
  }

  lemma {:induction false} RunsFlag(s: State, events: seq<Event>)
    requires Flagging(s) && Possible(s, events) && FlushSettles(false) !in events
    ensures Flagging(After(s, events))
    decreases |events|
  {
    if events != [] {
      assert events[0] in events;
      RunsFlag(Step(s, events[0]), events[1..]);
    }
  }

  /** When no flush fails, at rest every UID ever fetched is flagged. */
  lemma {:induction false} AllFlagged(events: seq<Event>, s: State)
    requires Reached(events, s) && s.queue == [] && s.running.Nothing? && FlushSettles(false) !in events
    ensures s.flagged == s.fetched
  {
    RestLosesNothing(events, s);
    RunsFlag(INITIAL, events);
  }

  // ---- a drain always ends ----

  lemma {:induction false} First(s: State, e: Event, more: seq<Event>)
    requires Enabled(s, e) && Possible(Step(s, e), more)
    ensures Possible(s, [e] + more) && After(s, [e] + more) == After(Step(s, e), more)
  {
    assert ([e] + more)[0] == e && ([e] + more)[1..] == more;
  }

  predicate AtRest(s: State) {
    s.queue == [] && s.running.Nothing?
  }

  /** The next event of a drain that goes on: the queue's head, or what it waits for. */
  function Next(s: State, ok: bool): Event {
    match s.running
    case Nothing => NextJob
    case Dispatching(_) => DispatchEnds
    case Flushing(_) => FlushSettles(ok)
  }

  function Left(s: State): nat {
    2 * |s.queue| + (if s.running.Nothing? then 0 else 1)
  }

  /** From every state the queue empties without another fetch, whether flushes succeed or fail. */
  lemma {:induction false} ReachesRest(s: State, ok: bool) returns (more: seq<Event>)
    ensures Possible(s, more) && AtRest(After(s, more)) && Arrivals(more) == []
    decreases Left(s)
  {
    if AtRest(s) {
      more := [];
    } else {
      var e := Next(s, ok);
      assert Left(Step(s, e)) < Left(s);
      var rest := ReachesRest(Step(s, e), ok);
      more := [e] + rest;
      First(s, e, rest);
      assert more[1..] == rest;
    }
  }
}
