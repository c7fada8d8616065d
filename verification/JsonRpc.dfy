/** The pending table of `JsonRpcLineClient` (packages/gateway-imessage/src/json-rpc.ts). */
module JsonRpc {
  import opened Options

  datatype Outcome = Answer | Error | Timeout | Disconnected

  datatype Id = Absent | Null | Number(n: int) | Text

  /** A parsed line: what `onLine` looks at. */
  datatype Message = Message(method_: bool, id: Id, error: bool)

  datatype Settle = Settle(id: int, outcome: Outcome)

  /** `pending` keeps insertion order, as the `Map` does; the rest after `open` is what callers saw. */
  datatype State = State(
    nextId: int,
    pending: seq<int>,
    open: bool,
    settles: seq<Settle>,
    refused: nat,        // requests answered `disconnected` without an id
    notified: nat,
    closedCalls: nat     // calls of `onClosed`
  )

  datatype Event = Request(writable: bool) | Line(message: Message) | TimerFires(id: int) | Close

  const INITIAL := State(1, [], true, [], 0, 0, 0)

  predicate Notifies(m: Message) {
    m.method_ && (m.id.Absent? || m.id.Null?)
  }

  function Without(pending: seq<int>, id: int): seq<int> {
    if pending == [] then []
    else (if pending[0] == id then [] else [pending[0]]) + Without(pending[1..], id)
  }

  function SettleOne(s: State, id: int, outcome: Outcome): State {
    if id in s.pending then s.(pending := Without(s.pending, id), settles := s.settles + [Settle(id, outcome)])
    else s
  }

  function AllDisconnected(ids: seq<int>): seq<Settle> {
    seq(|ids|, i requires 0 <= i < |ids| => Settle(ids[i], Disconnected))
  }

  function Step(s: State, e: Event): State {
    match e
    case Request(writable) =>
      if !s.open || !writable then s.(refused := s.refused + 1)
      else s.(nextId := s.nextId + 1, pending := s.pending + [s.nextId])
    case Line(m) =>
      if !s.open then s
      else if Notifies(m) then s.(notified := s.notified + 1)
      else if !m.id.Number? then s
      else SettleOne(s, m.id.n, if m.error then Error else Answer)
    case TimerFires(id) => SettleOne(s, id, Timeout)
    case Close =>
      if !s.open then s
      else s.(open := false, pending := [], settles := s.settles + AllDisconnected(s.pending),
              closedCalls := s.closedCalls + 1)
  }

  function After(s: State, events: seq<Event>): State
    decreases |events|
  {
    if events == [] then s else After(Step(s, events[0]), events[1..])
  }

  lemma {:induction false} AfterOneMore(s: State, events: seq<Event>, e: Event)
    ensures After(s, events + [e]) == Step(After(s, events), e)
    decreases |events|
  {
    if events == [] {
      assert (events + [e])[1..] == [];
    } else {
      AfterOneMore(Step(s, events[0]), events[1..], e);
      assert (events + [e])[0] == events[0] && (events + [e])[1..] == events[1..] + [e];
    }
  }

  // ---- what every step keeps ----

  predicate Increasing(ids: seq<int>) {
    forall i, j :: 0 <= i < j < |ids| ==> ids[i] < ids[j]
  }

  ghost predicate Settled(s: State, id: int) {
    exists i :: 0 <= i < |s.settles| && s.settles[i].id == id
  }

  /** Every issued id is either pending or settled, never both, and settled once. */
  ghost predicate Inv(s: State) {
    && s.nextId >= 1
    && Increasing(s.pending)
    && (forall i, j :: 0 <= i < j < |s.settles| ==> s.settles[i].id != s.settles[j].id)
    && (forall id :: 1 <= id < s.nextId <==> id in s.pending || Settled(s, id))
    && (forall id :: id in s.pending ==> !Settled(s, id))
    && (!s.open ==> s.pending == [])
    && s.closedCalls == (if s.open then 0 else 1)
  }

  lemma {:induction false} WithoutKeeps(pending: seq<int>, id: int)
    requires Increasing(pending)
    ensures Increasing(Without(pending, id))
    ensures forall x :: x in Without(pending, id) <==> x in pending && x != id
  {
    if pending != [] {
      var rest := Without(pending[1..], id);
      WithoutKeeps(pending[1..], id);
      assert forall x :: x in pending <==> x == pending[0] || x in pending[1..];
      forall i, j | 0 <= i < j < |Without(pending, id)|
        ensures Without(pending, id)[i] < Without(pending, id)[j]
      {
        if pending[0] != id {
          assert Without(pending, id)[j] == rest[j - 1] && rest[j - 1] in pending[1..];
          if i > 0 { assert Without(pending, id)[i] == rest[i - 1]; }
        }
      }
    }
  }

  lemma {:induction false} SettleKeeps(s: State, id: int, outcome: Outcome)
    requires Inv(s)
    ensures Inv(SettleOne(s, id, outcome))
  {
    if id in s.pending {
      var t := SettleOne(s, id, outcome);
      WithoutKeeps(s.pending, id);
      assert t.settles[|s.settles|].id == id;
      forall x
        ensures Settled(t, x) <==> Settled(s, x) || x == id
      {
        if Settled(s, x) {
          var i :| 0 <= i < |s.settles| && s.settles[i].id == x;
          assert t.settles[i].id == x;
        }
      }
    }
  }

  lemma {:induction false} CloseKeeps(s: State)
    requires Inv(s) && s.open
    ensures Inv(Step(s, Close))
  {
    var t, n := Step(s, Close), |s.settles|;
    forall x
      ensures Settled(t, x) <==> Settled(s, x) || x in s.pending
    {
      if Settled(s, x) {
        var i :| 0 <= i < n && s.settles[i].id == x;
        assert t.settles[i].id == x;
      } else if x in s.pending {
        var i :| 0 <= i < |s.pending| && s.pending[i] == x;
        assert t.settles[n + i].id == x;
      }
    }
    forall i, j | 0 <= i < j < |t.settles|
      ensures t.settles[i].id != t.settles[j].id
    {
      if i < n <= j {
        assert s.pending[j - n] in s.pending;
      }
    }
  }

  lemma {:induction false} StepKeeps(s: State, e: Event)
    requires Inv(s)
    ensures Inv(Step(s, e))
  {
    match e {
      case Request(writable) =>
        var t := Step(s, e);
        assert t.settles == s.settles;
        assert forall i :: 0 <= i < |s.pending| ==> s.pending[i] in s.pending;
        assert forall x :: Settled(t, x) <==> Settled(s, x);
      case Line(m) =>
        if s.open && !Notifies(m) && m.id.Number? {
          SettleKeeps(s, m.id.n, if m.error then Error else Answer);
        } else {
          assert forall x :: Settled(Step(s, e), x) <==> Settled(s, x);
        }
      case TimerFires(id) => SettleKeeps(s, id, Timeout);
      case Close => if s.open { CloseKeeps(s); }
    }
  }

  lemma {:induction false} RunsKeep(s: State, events: seq<Event>)
    requires Inv(s)
    ensures Inv(After(s, events))
    decreases |events|
  {
    if events != [] {
      StepKeeps(s, events[0]);
      RunsKeep(Step(s, events[0]), events[1..]);
    }
  }

  /** Under any order of answers, timers and closes the ids issued are the pending and the settled, each once. */
  lemma {:induction false} IssuedIsPendingOrSettledOnce(events: seq<Event>, id: int)
    ensures var s := After(INITIAL, events);
            && (1 <= id < s.nextId <==> (id in s.pending) != Settled(s, id))
            && (forall i, j :: 0 <= i < j < |s.settles| ==> s.settles[i].id != s.settles[j].id)
  {
    assert Inv(INITIAL);
    RunsKeep(INITIAL, events);
  }

  /** Once closed: nothing is pending, `onClosed` ran exactly once, and every later request is refused. */
  lemma {:induction false} ClosedIsFinal(events: seq<Event>, more: seq<Event>)
    requires Close in events
    ensures var s := After(INITIAL, events);
            && s.pending == [] && s.closedCalls == 1
            && var t := After(s, more);
               t == s.(refused := t.refused) && t.refused == s.refused + Requests(more)
  {
    assert Inv(INITIAL);
    RunsKeep(INITIAL, events);
    ClosesForGood(INITIAL, events);
    NothingAfterClose(After(INITIAL, events), more);
  }

  function Requests(events: seq<Event>): nat {
    if events == [] then 0 else (if events[0].Request? then 1 else 0) + Requests(events[1..])
  }

  lemma {:induction false} ClosesForGood(s: State, events: seq<Event>)
    requires Close in events || !s.open
    ensures !After(s, events).open
    decreases |events|
  {
    if events != [] {
      if Close in events && events[0] != Close { assert Close in events[1..]; }
      ClosesForGood(Step(s, events[0]), events[1..]);
    }
  }

  lemma {:induction false} NothingAfterClose(s: State, events: seq<Event>)
    requires !s.open && s.pending == []
    ensures After(s, events) == s.(refused := s.refused + Requests(events))
    decreases |events|
  {
    if events != [] {
      NothingAfterClose(Step(s, events[0]), events[1..]);
    }
  }

  // ---- the first decision wins ----

  /** What this event says about request `id`. */
  function Decision(e: Event, id: int): Option<Outcome> {
    match e
    case Line(m) =>
      if !Notifies(m) && m.id == Number(id) then Some(if m.error then Error else Answer) else None
    case TimerFires(i) => if i == id then Some(Timeout) else None
    case Close => Some(Disconnected)
    case Request(_) => None
  }

  function FirstDecision(events: seq<Event>, id: int): Option<Outcome> {
    if events == [] then None
    else if Decision(events[0], id).Some? then Decision(events[0], id)
    else FirstDecision(events[1..], id)
  }

  ghost predicate SettledWith(s: State, id: int, outcome: Outcome) {
    Settle(id, outcome) in s.settles && forall o :: Settle(id, o) in s.settles ==> o == outcome
  }

  /** A pending request settles with the first answer, timer or close that concerns it; duplicates change nothing. */
  lemma {:induction false} FirstDecisionWins(s: State, events: seq<Event>, id: int)
    requires Inv(s) && id in s.pending
    ensures match FirstDecision(events, id)
            case None => id in After(s, events).pending
            case Some(outcome) => SettledWith(After(s, events), id, outcome)
    decreases |events|
  {
    if events != [] {
      var t := Step(s, events[0]);
      StepKeeps(s, events[0]);
      StepDecides(s, events[0], id);
      if id in t.pending {
        FirstDecisionWins(t, events[1..], id);
      } else {
        SettlesOnlyGrow(t, events[1..]);
        RunsKeep(t, events[1..]);
        OnlyOnce(After(t, events[1..]), id, Decision(events[0], id).value);
      }
    }
  }

  lemma {:induction false} StepDecides(s: State, e: Event, id: int)
    requires Inv(s) && id in s.pending
    ensures Decision(e, id).None? ==> id in Step(s, e).pending
    ensures Decision(e, id).Some? ==>
              id !in Step(s, e).pending && Settle(id, Decision(e, id).value) in Step(s, e).settles
  {
    match e {
      case Line(m) => if m.id.Number? { WithoutKeeps(s.pending, m.id.n); }
      case TimerFires(i) => WithoutKeeps(s.pending, i);
      case Close =>
        var i :| 0 <= i < |s.pending| && s.pending[i] == id;
        assert Step(s, e).settles[|s.settles| + i] == Settle(id, Disconnected);
      case Request(_) =>
    }
  }

  lemma {:induction false} SettlesOnlyGrow(s: State, events: seq<Event>)
    ensures s.settles <= After(s, events).settles
    decreases |events|
  {
    if events != [] {
      SettlesOnlyGrow(Step(s, events[0]), events[1..]);
    }
  }

  lemma {:induction false} OnlyOnce(s: State, id: int, outcome: Outcome)
    requires Inv(s) && Settle(id, outcome) in s.settles
    ensures SettledWith(s, id, outcome)
  {
  }

  // ---- the class ----

  class JsonRpcLineClient {
    var nextId: int
    var pending: seq<int>
    var open: bool
    var settles: seq<Settle>
    var refused: nat
    var notified: nat
    var closedCalls: nat
    ghost var events: seq<Event>  // everything that happened to this object

    ghost function View(): State
      reads this
    {
      State(nextId, pending, open, settles, refused, notified, closedCalls)
    }

    ghost predicate Valid()
      reads this
    {
      View() == After(INITIAL, events)
    }

    constructor ()
      ensures Valid() && View() == INITIAL
    {
      nextId, pending, open, settles, refused, notified, closedCalls := 1, [], true, [], 0, 0, 0;
      events := [];
    }

    /** `request`: the id it was written with, or `None` when answered `disconnected` at once (lines 82-94). */
    method Request(writable: bool) returns (id: Option<int>)
      requires Valid()
      modifies this
      ensures Valid() && View() == Step(old(View()), Event.Request(writable))
      ensures events == old(events) + [Event.Request(writable)]
      ensures id == if old(open) && writable then Some(old(nextId)) else None
    {
      AfterOneMore(INITIAL, events, Event.Request(writable));
      events := events + [Event.Request(writable)];
      if !open || !writable {
        refused := refused + 1;
        return None;
      }
      id := Some(nextId);
      nextId := nextId + 1;
      pending := pending + [id.value];
    }

    /** `settle` (lines 104-110). */
    method SettleRequest(id: int, outcome: Outcome)
      modifies this`pending, this`settles
      ensures View() == SettleOne(old(View()), id, outcome)
    {
      if id !in pending { return; }
      pending := Without(pending, id);
      settles := settles + [Settle(id, outcome)];
    }

    /** `onLine` after `JSON.parse` (lines 112-134). */
    method OnLine(m: Message)
      requires Valid()
      modifies this
      ensures Valid() && View() == Step(old(View()), Line(m)) && events == old(events) + [Line(m)]
    {
      AfterOneMore(INITIAL, events, Line(m));
      events := events + [Line(m)];
      if !open { return; }
      if Notifies(m) {
        notified := notified + 1;
        return;
      }
      if !m.id.Number? { return; }
      SettleRequest(m.id.n, if m.error then Error else Answer);
    }

    method OnTimer(id: int)
      requires Valid()
      modifies this
      ensures Valid() && View() == Step(old(View()), TimerFires(id)) && events == old(events) + [TimerFires(id)]
    {
      AfterOneMore(INITIAL, events, TimerFires(id));
      events := events + [TimerFires(id)];
      SettleRequest(id, Timeout);
    }

    /** `close`: every pending request in turn, then `onClosed` (lines 97-102). */
    method CloseClient()
      requires Valid()
      modifies this
      ensures Valid() && View() == Step(old(View()), Close) && events == old(events) + [Close]
      ensures !open && pending == [] && closedCalls == 1
    {
      RunsKeep(INITIAL, events);
      AfterOneMore(INITIAL, events, Close);
      events := events + [Close];
      Shut();
    }

    method Shut()
      requires Increasing(pending)
      modifies this`open, this`pending, this`settles, this`closedCalls
      ensures View() == Step(old(View()), Close)
      ensures !open && (old(open) ==> pending == [] && closedCalls == old(closedCalls) + 1)
    {
      if !open { return; }
      open := false;
      SettleAll();
      closedCalls := closedCalls + 1;
    }

    method SettleAll()
      requires Increasing(pending)
      modifies this`pending, this`settles
      ensures pending == [] && settles == old(settles) + AllDisconnected(old(pending))
    {
      var ids := pending;
      for i := 0 to |ids|
        invariant pending == ids[i..] && settles == old(settles) + AllDisconnected(ids)[..i]
      {
        WithoutFirst(ids[i..]);
        assert ids[i..][1..] == ids[i + 1..];
        assert AllDisconnected(ids)[..i + 1] == AllDisconnected(ids)[..i] + [Settle(ids[i], Disconnected)];
        SettleRequest(ids[i], Disconnected);
      }
      assert AllDisconnected(ids)[..|ids|] == AllDisconnected(ids);
    }
  }

  lemma {:induction false} WithoutFirst(pending: seq<int>)
    requires pending != [] && Increasing(pending)
    ensures Without(pending, pending[0]) == pending[1..]
  {
    WithoutAbsent(pending[1..], pending[0]);
  }

  lemma {:induction false} WithoutAbsent(pending: seq<int>, id: int)
    requires id !in pending
    ensures Without(pending, id) == pending
  {
    if pending != [] {
      WithoutAbsent(pending[1..], id);
    }
  }
}
