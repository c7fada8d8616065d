/**
 What a `JsonRpcLineClient` issued, refused and handed on, counted off what happened to it
 (packages/gateway-imessage/src/json-rpc.ts).
 */
module JsonRpcTrace {
  import opened JsonRpc

  predicate IsWritten(e: Event) { e == Request(true) }

  predicate IsUnwritable(e: Event) { e == Request(false) }

  predicate IsRequest(e: Event) { e.Request? }

  /** A method and no id, or a null one. */
  predicate IsNotice(e: Event) {
    e.Line? && e.message.method_ && e.message.id in {Absent, Null}
  }

  function Count(events: seq<Event>, p: Event -> bool): nat {
    if events == [] then 0 else (if p(events[0]) then 1 else 0) + Count(events[1..], p)
  }

  /** What happened before the first close. */
  function BeforeClose(events: seq<Event>): seq<Event> {
    if events == [] || events[0].Close? then [] else [events[0]] + BeforeClose(events[1..])
  }

  function SinceClose(events: seq<Event>): seq<Event> {
    if events == [] || events[0].Close? then events else SinceClose(events[1..])
  }

  lemma {:induction false} CountsFrom(s: State, events: seq<Event>)
    requires s.open
    ensures var t, live := After(s, events), BeforeClose(events);
            && t.nextId == s.nextId + Count(live, IsWritten)
            && t.refused == s.refused + Count(live, IsUnwritable) + Count(SinceClose(events), IsRequest)
            && t.notified == s.notified + Count(live, IsNotice)
            && (t.open <==> Close !in events)
    decreases |events|
  {
    if events == [] {
    } else if events[0].Close? {
      ClosedCounts(Step(s, Close), events[1..]);
    } else {
      assert BeforeClose(events)[1..] == BeforeClose(events[1..]);
      CountsFrom(Step(s, events[0]), events[1..]);
    }
  }

  lemma {:induction false} ClosedCounts(s: State, events: seq<Event>)
    requires !s.open && s.pending == []
    ensures var t := After(s, events);
            && t.nextId == s.nextId && t.notified == s.notified && !t.open
            && t.refused == s.refused + Count(events, IsRequest)
    decreases |events|
  {
    if events != [] {
      ClosedCounts(Step(s, events[0]), events[1..]);
    }
  }

  /**
   For every history: one id was issued for each request written before the first close and for no other, every other
   request was refused, and every notification read before it was handed on.
   */
  lemma {:induction false} CountedExactly(events: seq<Event>)
    ensures var s, live := After(INITIAL, events), BeforeClose(events);
            && s.nextId == 1 + Count(live, IsWritten)
            && s.refused == Count(live, IsUnwritable) + Count(SinceClose(events), IsRequest)
            && s.notified == Count(live, IsNotice)
            && (s.open <==> Close !in events)
  {
    CountsFrom(INITIAL, events);
  }

  /** A close settles whatever is pending, oldest request first. */
  lemma {:induction false} CloseSettlesInOrder(events: seq<Event>, i: nat)
    requires Close !in events && i < |After(INITIAL, events).pending|
    ensures var s, t := After(INITIAL, events), After(INITIAL, events + [Close]);
            && |t.settles| == |s.settles| + |s.pending| && s.settles <= t.settles
            && t.settles[|s.settles| + i] == Settle(s.pending[i], Disconnected)
            && (i > 0 ==> s.pending[i - 1] < s.pending[i])
  {
    CountsFrom(INITIAL, events);
    AfterOneMore(INITIAL, events, Close);
    assert Inv(INITIAL);
    RunsKeep(INITIAL, events);
  }
}
