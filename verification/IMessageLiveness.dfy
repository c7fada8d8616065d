/**
 What the calls of the iMessage adapter bring about: a disconnect ends the session for good, a row
 without a handler is kept for later, and everything written can arrive
 (packages/gateway-imessage/src/adapter.ts).
 */
module IMessageLiveness {
  import opened Options
  import opened IMessage

  ghost predicate Reached(events: seq<Event>, s: State) {
    Possible(INITIAL, events) && s == After(INITIAL, events)
  }

  /** `disconnect()`, an exit of the child and a send that ended it leave no session and no open client. */
  lemma {:induction false} EndLeavesNothing(past: seq<Event>, s: State, e: Event)
    requires Reached(past, s) && Enabled(s, e)
    requires e.Disconnect? || (e.SendEndsChild? && s.session == Some(e.session)) || e.ChildCloses?
    ensures var t := Step(s, e);
            && t.session.None? && !t.connected && t.open == {}
            && t.calls == s.calls && t.rows == s.rows && t.turn == s.turn && t.lastRowId == s.lastRowId
            && (s.connecting.Some? && s.connecting.value.Waiting? ==>
                  t.connecting == Some(Answered(s.connecting.value.session, false)))
  {
    RunsKeep(INITIAL, past);
  }

  /** A late end of an earlier child touches nothing. */
  lemma {:induction false} PastEndChangesNothing(past: seq<Event>, s: State, k: nat)
    requires Reached(past, s) && k < |s.since| && s.session != Some(k)
    ensures Step(s, SendEndsChild(k)) == s && !Enabled(s, ChildCloses(k))
  {
    RunsKeep(INITIAL, past);
    assert s.open - {k} == s.open;
  }

  lemma {:induction false} SilentStep(s: State, e: Event)
    requires OneSession(s) && s.session.None? && Enabled(s, e) && !e.Connect?
    ensures var t := Step(s, e);
            t.session.None? && t.calls == s.calls && !t.connected && t.since == s.since && OneSession(t)
  {
    StepKeepsOneSession(s, e);
  }

  /** Without a session and without a `connect()`: whatever is still queued, no row is handed over. */
  lemma {:induction false} SilentUntilConnect(s: State, events: seq<Event>)
    requires OneSession(s) && s.session.None? && Possible(s, events)
    requires forall i :: 0 <= i < |events| ==> !events[i].Connect?
    ensures var t := After(s, events); t.session.None? && t.calls == s.calls && !t.connected && t.open == {}
    decreases |events|
  {
    if events != [] {
      assert !events[0].Connect?;
      assert forall i :: 0 <= i < |events| - 1 ==> events[1..][i] == events[i + 1];
      SilentStep(s, events[0]);
      SilentUntilConnect(Step(s, events[0]), events[1..]);
    }
  }

  /** After `disconnect()` no row reaches the handler, and nothing is connected, until a `connect()`. */
  lemma {:induction false} DisconnectSilences(past: seq<Event>, s: State, events: seq<Event>)
    requires Reached(past, s) && Possible(Step(s, Disconnect), events)
    requires forall i :: 0 <= i < |events| ==> !events[i].Connect?
    ensures var t := After(Step(s, Disconnect), events);
            t.session.None? && t.calls == s.calls && !t.connected && t.open == {}
  {
    EndLeavesNothing(past, s, Disconnect);
    RunsKeep(INITIAL, past);
    StepKeeps(s, Disconnect);
    SilentUntilConnect(Step(s, Disconnect), events);
  }

  // ---- a connect ----

  /** Only a `connect()` with none pending and none connected starts a child, after the cursor; it starts one. */
  lemma {:induction false} ChildrenStart(past: seq<Event>, s: State, e: Event)
    requires Reached(past, s) && Enabled(s, e)
    ensures Step(s, e).since ==
              if e.Connect? && e.spawns && !s.connected && s.connecting.None? then s.since + [s.lastRowId] else s.since
    ensures e.Connect? && (s.connected || s.connecting.Some?) ==> Step(s, e) == s
    ensures e.Connect? && !e.spawns && !s.connected && s.connecting.None? ==>
              Step(s, e) == s.(connecting := Some(Done(false)))
    ensures e.Connect? && e.spawns && !e.writable && !s.connected && s.connecting.None? ==>
              Step(s, e).connecting == Some(Answered(|s.since|, false))
  {
  }

  /** A pending `connect()` is answered `true` exactly when its child was granted and is still the session. */
  lemma {:induction false} OpenAnswers(past: seq<Event>, s: State)
    requires Reached(past, s) && Enabled(s, OpenResumes)
    ensures var t, opening := Step(s, OpenResumes), s.connecting.value;
            && t.connecting == Some(Done(opening.granted && s.session == Some(opening.session)))
            && (t.connecting == Some(Done(true)) ==> t.connected && t.session == s.session && t.open == s.open)
            && (t.connecting == Some(Done(false)) ==> !t.connected && t.session.None? && t.open == {})
            && t.calls == s.calls && t.rows == s.rows && t.lastRowId == s.lastRowId
  {
    RunsKeep(INITIAL, past);
  }

  /** From every state a `disconnect()`, and the pending answer if there is one, allow a fresh `connect()`. */
  lemma {:induction false} ReconnectsFromAnywhere(past: seq<Event>, s: State) returns (events: seq<Event>, t: State)
    requires Reached(past, s)
    ensures Possible(s, events) && t == After(s, events)
    ensures t.connected && t.session == Some(|s.since|) && t.since == s.since + [s.lastRowId] && t.open == {|s.since|}
    ensures t.calls == s.calls
  {
    RunsKeep(INITIAL, past);
    var es, s1 := Quiets(s);
    Joined(INITIAL, past, s, es);
    t := UndisturbedConnects(past + es, s1);
    var quiet := [Event.Connect(true, true)] + [SubscribeSettles(true)] + [OpenResumes];
    Joined(s, es, s1, quiet);
    events := es + quiet;
    QuietCalls(s1);
  }

  lemma {:induction false} QuietCalls(s: State)
    requires !s.connected && s.connecting.None?
    requires Possible(s, [Event.Connect(true, true)] + [SubscribeSettles(true)] + [OpenResumes])
    ensures After(s, [Event.Connect(true, true)] + [SubscribeSettles(true)] + [OpenResumes]).calls == s.calls
  {
    var s1 := Step(s, Event.Connect(true, true));
    var s2 := Step(s1, SubscribeSettles(true));
    Extend(s, [], s, Event.Connect(true, true));
    assert [] + [Event.Connect(true, true)] == [Event.Connect(true, true)];
    Extend(s, [Event.Connect(true, true)], s1, SubscribeSettles(true));
    Extend(s, [Event.Connect(true, true)] + [SubscribeSettles(true)], s2, OpenResumes);
  }

  lemma {:induction false} Joined(s: State, es: seq<Event>, t: State, fs: seq<Event>)
    requires Possible(s, es) && t == After(s, es) && Possible(t, fs)
    ensures Possible(s, es + fs) && After(s, es + fs) == After(t, fs)
    decreases |es|
  {
    if es == [] {
      assert es + fs == fs;
    } else {
      Joined(Step(s, es[0]), es[1..], t, fs);
      assert (es + fs)[0] == es[0] && (es + fs)[1..] == es[1..] + fs;
    }
  }

  /** Disconnect, then let the pending `connect()` end. */
  lemma {:induction false} Quiets(s: State) returns (events: seq<Event>, t: State)
    requires Inv(s)
    ensures Possible(s, events) && t == After(s, events)
    ensures !t.connected && t.connecting.None? && t.since == s.since && t.lastRowId == s.lastRowId && t.calls == s.calls
  {
    var s1 := Step(s, Disconnect);
    StepKeeps(s, Disconnect);
    Extend(s, [], s, Disconnect);
    events, t := [] + [Disconnect], s1;
    if s1.connecting.Some? && s1.connecting.value.Answered? {
      t := Step(s1, OpenResumes);
      Extend(s, events, s1, OpenResumes);
      events := events + [OpenResumes];
    }
    if t.connecting.Some? {
      Extend(s, events, t, OpeningCleared);
      events := events + [OpeningCleared];
      t := Step(t, OpeningCleared);
    }
  }

  /** A subscription that is refused answers `false` and leaves nothing connected. */
  lemma {:induction false} RefusedConnects(past: seq<Event>, s: State) returns (t: State)
    requires Reached(past, s) && !s.connected && s.connecting.None?
    ensures var refused := [Event.Connect(true, true)] + [SubscribeSettles(false)] + [OpenResumes];
            Possible(s, refused) && t == After(s, refused)
    ensures t.connecting == Some(Done(false)) && !t.connected && t.session.None? && t.open == {}
  {
    RunsKeep(INITIAL, past);
    var e1, e2 := Event.Connect(true, true), SubscribeSettles(false);
    var s1 := Step(s, e1);
    var s2 := Step(s1, e2);
    StepKeeps(s, e1);
    StepKeeps(s1, e2);
    StepKeeps(s2, OpenResumes);
    t := Step(s2, OpenResumes);
    Extend(s, [], s, e1);
    assert [] + [e1] == [e1];
    Extend(s, [e1], s1, e2);
    Extend(s, [e1] + [e2], s2, OpenResumes);
  }

  // ---- a row without a handler ----

  /** Once the handler unsubscribed it is called no more, until one subscribes. */
  lemma {:induction false} UnsubscribedStaysSilent(s: State, events: seq<Event>)
    requires Possible(Step(s, Unsubscribe), events)
    requires forall i :: 0 <= i < |events| ==> !events[i].OnInbound?
    ensures After(Step(s, Unsubscribe), events).calls == s.calls
  {
    HandlerStaysAway(Step(s, Unsubscribe), events);
  }

  lemma {:induction false} HandlerStaysAway(s: State, events: seq<Event>)
    requires !s.handler && Possible(s, events) && forall i :: 0 <= i < |events| ==> !events[i].OnInbound?
    ensures After(s, events).calls == s.calls
    decreases |events|
  {
    if events != [] {
      assert !events[0].OnInbound?;
      assert forall i :: 0 <= i < |events| - 1 ==> events[1..][i] == events[i + 1];
      HandlerStaysAway(Step(s, events[0]), events[1..]);
    }
  }

  /** It does not move the cursor, so a child connected next is asked for it again. */
  lemma {:induction false} UnhandledRowStays(past: seq<Event>, s: State)
    requires Reached(past, s) && Enabled(s, TakeRow) && !Stale(s, s.rows[0])
    requires !s.handler && s.rows[0].row.forHandler
    ensures var t := Step(s, TakeRow);
            && t.calls == s.calls && t.lastRowId == s.lastRowId && t.turn.NoTurn? && t.rows == s.rows[1..]
            && Before(t.lastRowId, s.rows[0].row.id)
  {
  }

  /**
   Every other turn: a row of an ended session, or one the cursor covers, is dropped; one that makes no
   event moves the cursor; any other, with an id or without, is handed over.
   */
  lemma {:induction false} OtherTurns(past: seq<Event>, s: State)
    requires Reached(past, s) && Enabled(s, TakeRow)
    ensures var t, row := Step(s, TakeRow), s.rows[0].row;
            && t.rows == s.rows[1..]
            && (s.session != Some(s.rows[0].session) ==> t == s.(rows := t.rows))
            && (!Before(s.lastRowId, row.id) ==> t == s.(rows := t.rows))
            && (s.session == Some(s.rows[0].session) && Before(s.lastRowId, row.id) ==>
                  && (!row.forHandler && row.id.Some? ==>
                        t.lastRowId == row.id && t.calls == s.calls && t.turn.NoTurn?)
                  && (row.forHandler && s.handler ==>
                        t.calls == s.calls + [row] && t.turn == InHandler(s.rows[0]) && t.lastRowId == s.lastRowId))
  {
  }

  // ---- everything arrives ----

  function Busy(s: State): nat {
    2 * |s.rows| + (if s.turn.InHandler? then 1 else 0)
  }

  ghost function Unwritten(db: seq<Row>, begins: nat -> nat, s: State): nat
    requires InStep(db, begins, s) && s.session.Some?
  {
    |db| - Written(db, begins, s, s.session.value)
  }

  /** What happens next while the child writes on and the handler returns. */
  ghost function Onwards(db: seq<Row>, begins: nat -> nat, s: State): Event
    requires InStep(db, begins, s) && s.session.Some?
  {
    if s.turn.InHandler? then HandlerReturns
    else if s.rows != [] then TakeRow
    else if Written(db, begins, s, s.session.value) < |db| then
      Notify(s.session.value, db[Written(db, begins, s, s.session.value)])
    else TakeRow
  }

  lemma {:induction false} OnwardsStep(db: seq<Row>, begins: nat -> nat, s: State, e: Event)
    requires Inv(s) && InStep(db, begins, s) && s.session.Some? && e == Onwards(db, begins, s)
    requires s.turn.InHandler? || s.rows != [] || Written(db, begins, s, s.session.value) < |db|
    ensures Enabled(s, e) && Replays(db, begins, s, e) && !e.Unsubscribe?
    ensures var t := Step(s, e);
            && t.session == s.session && t.since == s.since && t.connected == s.connected
            && |t.sent| == |s.sent| && t.sent[s.session.value] == s.sent[s.session.value] + (if e.Notify? then 1 else 0)
            && (!e.Notify? ==> Busy(t) < Busy(s))
  {
  }

  /**
   From every reachable state in step with its cursor and a child: if the child writes on, it can write
   the whole table and every row can have its turn, and then no event after the cursor is missing.
   */
  lemma {:induction false} EveryRowArrives(db: seq<Row>, begins: nat -> nat, past: seq<Event>, s: State)
    returns (events: seq<Event>, t: State)
    requires Reached(past, s) && InStep(db, begins, s) && s.session.Some?
    ensures Possible(s, events) && Faithful(db, begins, s, events) && t == After(s, events)
    ensures Drained(db, begins, t) && t.connected == s.connected
    ensures 0 <= FinishedCalls(s) <= |t.calls|
    ensures t.calls[FinishedCalls(s)..] == ForHandler(db[Position(db, s.lastRowId.value)..])
  {
    RunsKeep(INITIAL, past);
    events, t := Drains(db, begins, s);
    CaughtUp(db, begins, past, s, events, t);
  }

  lemma {:induction false} Drains(db: seq<Row>, begins: nat -> nat, s: State) returns (events: seq<Event>, t: State)
    requires Inv(s) && InStep(db, begins, s) && s.session.Some?
    ensures Possible(s, events) && Faithful(db, begins, s, events) && t == After(s, events)
    ensures Drained(db, begins, t) && t.connected == s.connected
    decreases Unwritten(db, begins, s), Busy(s)
  {
    var k := s.session.value;
    if s.turn.NoTurn? && s.rows == [] && Written(db, begins, s, k) == |db| {
      events, t := [], s;
    } else {
      var e := Onwards(db, begins, s);
      OnwardsStep(db, begins, s, e);
      StepKeeps(s, e);
      RunsStayInStep(db, begins, s, e);
      var rest;
      rest, t := Drains(db, begins, Step(s, e));
      events := [e] + rest;
      assert events[0] == e && events[1..] == rest;
    }
  }

  lemma {:induction false} RunsStayInStep(db: seq<Row>, begins: nat -> nat, s: State, e: Event)
    requires Inv(s) && InStep(db, begins, s) && Enabled(s, e) && Replays(db, begins, s, e) && !e.Unsubscribe?
    ensures InStep(db, begins, Step(s, e))
  {
    var due := Position(db, s.lastRowId.value);
    assert db[due..due] == [];
    assert s.calls[FinishedCalls(s)..] == Running(s);
    StepLeavesNoGap(db, begins, s, e, due, FinishedCalls(s));
  }
}
