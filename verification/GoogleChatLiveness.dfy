/**
 What the calls of the Google Chat adapter bring about: `disconnect()` wins over whatever is pending,
 and everything pending can settle (packages/gateway-google-chat/src/adapter.ts).
 */
module GoogleChatLiveness {
  import opened Options
  import opened GoogleChat

  // ---- disconnect() ----

  /** Nothing is held and no attempt belongs to the present generation. */
  ghost predicate AllOvertaken(s: State) {
    && !s.connected && s.connecting.None? && s.server.None?
    && forall a :: 0 <= a < |s.attempts| ==> !Current(s, a)
  }

  /** `disconnect()` overtakes every attempt at once, and gives up the listener held. */
  lemma {:induction false} DisconnectOvertakes(past: seq<Event>, s: State)
    requires Reached(past, s)
    ensures var t := Step(s, Disconnect);
            && AllOvertaken(t) && t.attempts == s.attempts && t.live == s.live
            && t.closing == s.closing + (if s.server.Some? then {s.server.value} else {})
  {
    RunsKeep(INITIAL, past);
  }

  predicate AnsweredTrue(s: State, a: nat) {
    In(s, a, Answered(true)) || In(s, a, Over(true))
  }

  lemma {:induction false} OvertakenStep(s: State, e: Event)
    requires SlotAgrees(s) && AllOvertaken(s) && Enabled(s, e) && !e.Connect?
    ensures AllOvertaken(Step(s, e))
    ensures forall a: nat :: AnsweredTrue(Step(s, e), a) ==> AnsweredTrue(s, a)
  {
    var t := Step(s, e);
    assert !t.connected && t.connecting.None? && t.server.None?;
    forall a | 0 <= a < |t.attempts|
      ensures !Current(t, a)
    {
      assert !Current(s, a) && s.attempts[a].generation <= s.generation;
      assert t.attempts[a].generation == s.attempts[a].generation;
    }
  }

  lemma {:induction false} OvertakenForGood(s: State, events: seq<Event>)
    requires Inv(s) && AllOvertaken(s) && Possible(s, events)
    requires forall i :: 0 <= i < |events| ==> !events[i].Connect?
    ensures AllOvertaken(After(s, events))
    ensures forall a: nat :: AnsweredTrue(After(s, events), a) ==> AnsweredTrue(s, a)
    decreases |events|
  {
    if events != [] {
      assert !events[0].Connect?;
      assert forall i :: 0 <= i < |events| - 1 ==> events[1..][i] == events[i + 1];
      OvertakenStep(s, events[0]);
      StepKeeps(s, events[0]);
      OvertakenForGood(Step(s, events[0]), events[1..]);
    }
  }

  lemma {:induction false} Joined(s: State, es: seq<Event>, t: State, fs: seq<Event>)
    requires Possible(s, es) && t == After(s, es) && Possible(t, fs)
    ensures Possible(s, es + fs) && After(s, es + fs) == After(t, fs)
    decreases |es|
  {
    if es == [] {
      assert es + fs == fs;
    } else {
      Joined(Step(s, es[0]), es[1..], t, fs);
      assert (es + fs)[0] == es[0] && (es + fs)[1..] == es[1..] + fs;
    }
  }

  /**
   A `disconnect()` wins over every pending connect: until a `connect()` made after it the adapter is
   never connected and no attempt newly answers `true`, and at rest no listener is open.
   */
  lemma {:induction false} DisconnectWins(past: seq<Event>, s: State, events: seq<Event>, t: State)
    requires Reached(past, s) && Possible(Step(s, Disconnect), events) && t == After(Step(s, Disconnect), events)
    requires forall i :: 0 <= i < |events| ==> !events[i].Connect?
    ensures !t.connected && t.connecting.None? && t.server.None?
    ensures forall a: nat :: AnsweredTrue(t, a) ==> AnsweredTrue(s, a)
    ensures AtRest(t) ==> t.live == {}
  {
    DisconnectOvertakes(past, s);
    RunsKeep(INITIAL, past);
    StepKeeps(s, Disconnect);
    OvertakenForGood(Step(s, Disconnect), events);
    Extend(INITIAL, past, s, Disconnect);
    Joined(INITIAL, past + [Disconnect], Step(s, Disconnect), events);
    if AtRest(t) { RestHoldsOneListener(past + [Disconnect] + events, t); }
  }

  // ---- what fails answers false ----

  /** An attempt whose token or bind fails, or that was overtaken before listening, answers `false` with no listener. */
  lemma {:induction false} FailureAnswersFalse(past: seq<Event>, s: State, e: Event, a: nat)
    requires Reached(past, s) && Enabled(s, e)
    requires e == TokenSettles(a, false) || (e == TokenSettles(a, true) && !Current(s, a)) || e == BindFails(a)
    ensures var t := Step(s, e);
            In(t, a, Answered(false)) && a !in t.live && t.live == s.live && t.connected == s.connected
  {
    RunsKeep(INITIAL, past);
  }

  /** A key that cannot be read answers `false` at once, with nothing opened. */
  lemma {:induction false} UnreadableKeyAnswersFalse(past: seq<Event>, s: State)
    requires Reached(past, s) && !s.connected && s.connecting.None?
    ensures var t, a := Step(s, Connect(false)), |s.attempts|;
            In(t, a, Answered(false)) && t.connecting == Some(a) && t.live == s.live && !t.connected
  {
  }

  /** One overtaken while listening gives its listener back and then answers `false`. */
  lemma {:induction false} OvertakenGivesBack(past: seq<Event>, s: State, a: nat)
    requires Reached(past, s) && Enabled(s, StartResumes(a)) && !Current(s, a)
    ensures var t := Step(s, StartResumes(a));
            && In(t, a, GivingBack) && a in t.live && Enabled(t, GivenBack(a))
            && In(Step(t, GivenBack(a)), a, Answered(false)) && Step(t, GivenBack(a)).live == s.live - {a}
  {
    RunsKeep(INITIAL, past);
  }

  // ---- everything pending can settle ----

  function Rank(p: Phase): nat {
    match p
    case AwaitsToken => 5
    case Starting => 4
    case Bound => 3
    case GivingBack => 2
    case Answered(_) => 1
    case Over(_) => 0
  }

  function Work(attempts: seq<Attempt>): nat {
    if attempts == [] then 0 else Rank(attempts[0].phase) + Work(attempts[1..])
  }

  lemma {:induction false} WorkLess(attempts: seq<Attempt>, a: nat, b: Attempt)
    requires a < |attempts| && Rank(b.phase) < Rank(attempts[a].phase)
    ensures Work(attempts[a := b]) < Work(attempts)
  {
    if a == 0 {
      assert attempts[a := b][1..] == attempts[1..];
    } else {
      assert attempts[a := b][1..] == attempts[1..][a - 1 := b];
      WorkLess(attempts[1..], a - 1, b);
    }
  }

  /** What the attempt waits for, going well. */
  function NextOf(s: State, a: nat): Event
    requires a < |s.attempts| && Unfinished(s, a)
  {
    match s.attempts[a].phase
    case AwaitsToken => TokenSettles(a, true)
    case Starting => Binds(a)
    case Bound => StartResumes(a)
    case GivingBack => GivenBack(a)
    case _ => AttemptCleared(a)
  }

  lemma {:induction false} AttemptAdvances(s: State, a: nat, e: Event)
    requires a < |s.attempts| && Unfinished(s, a) && e == NextOf(s, a)
    ensures Enabled(s, e) && Work(Step(s, e).attempts) < Work(s.attempts)
    ensures !e.Connect? && !e.Disconnect?
  {
    var t := Step(s, e);
    assert t.attempts == s.attempts[a := t.attempts[a]];
    WorkLess(s.attempts, a, t.attempts[a]);
  }

  /** From every state everything pending can settle: no attempt is unfinished and no stop is pending. */
  lemma {:induction false} Settles(s: State) returns (events: seq<Event>, t: State)
    requires Inv(s)
    ensures Possible(s, events) && t == After(s, events)
    ensures forall i :: 0 <= i < |events| ==> !events[i].Connect? && !events[i].Disconnect?
    ensures AtRest(t) && t.connecting.None? && forall a :: 0 <= a < |t.attempts| ==> !Unfinished(t, a)
    decreases Work(s.attempts), |s.closing|
  {
    events, t := [], s;
    var e: Event;
    if a: nat :| a < |s.attempts| && Unfinished(s, a) {
      e := NextOf(s, a);
      AttemptAdvances(s, a, e);
    } else if s.closing != {} {
      var a :| a in s.closing;
      e := ServerStopped(a);
    } else {
      return;
    }
    StepKeeps(s, e);
    var rest;
    rest, t := Settles(Step(s, e));
    events := [e] + rest;
    assert events[0] == e && events[1..] == rest;
  }

  /** So a `disconnect()` at any moment can come to rest with no listener open. */
  lemma {:induction false} DisconnectReachesRest(past: seq<Event>, s: State) returns (events: seq<Event>, t: State)
    requires Reached(past, s)
    ensures Possible(Step(s, Disconnect), events) && t == After(Step(s, Disconnect), events)
    ensures AtRest(t) && t.live == {} && !t.connected
  {
    RunsKeep(INITIAL, past);
    StepKeeps(s, Disconnect);
    events, t := Settles(Step(s, Disconnect));
    DisconnectWins(past, s, events, t);
  }
}
