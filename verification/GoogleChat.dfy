/**
 The Google Chat connect/disconnect protocol: a generation number decides which attempt may commit
 (packages/gateway-google-chat/src/adapter.ts).

 An attempt is one `openSession()`, numbered by its call; its listener carries the same number. The
 code between two awaits is one step.
 */
module GoogleChat {
  import opened Options
  import Listener

  /** Where an attempt is: the token, the listener, giving the listener back, answered, forgotten. */
  datatype Phase =
    | AwaitsToken
    | Starting
    | Bound
    | GivingBack
    | Answered(result: bool)
    | Over(result: bool)

  datatype Attempt = Attempt(generation: nat, phase: Phase)

  datatype State = State(
    connected: bool,
    connecting: Option<nat>,
    generation: nat,
    server: Option<nat>,
    attempts: seq<Attempt>,
    live: set<nat>,      // listeners open
    closing: set<nat>    // listeners `disconnect()` is stopping
  )

  datatype Event =
    | Connect(keyReadable: bool)
    | TokenSettles(attempt: nat, ok: bool)
    | Binds(attempt: nat)
    | BindFails(attempt: nat)
    | StartResumes(attempt: nat)
    | GivenBack(attempt: nat)
    | AttemptCleared(attempt: nat)
    | Disconnect
    | ServerStopped(attempt: nat)

  const INITIAL := State(false, None, 0, None, [], {}, {})

  predicate In(s: State, a: nat, phase: Phase) {
    a < |s.attempts| && s.attempts[a].phase == phase
  }

  predicate Enabled(s: State, e: Event) {
    match e
    case Connect(_) => true
    case TokenSettles(a, _) => In(s, a, AwaitsToken)
    case Binds(a) => In(s, a, Starting)
    case BindFails(a) => In(s, a, Starting)
    case StartResumes(a) => In(s, a, Bound)
    case GivenBack(a) => In(s, a, GivingBack)
    case AttemptCleared(a) => a < |s.attempts| && s.attempts[a].phase.Answered?
    case Disconnect => true
    case ServerStopped(a) => a in s.closing
  }

  // ---- specification of the steps ----

  function Enter(s: State, a: nat, phase: Phase): State
    requires a < |s.attempts|
  {
    s.(attempts := s.attempts[a := s.attempts[a].(phase := phase)])
  }

  predicate Current(s: State, a: nat)
    requires a < |s.attempts|
  {
    s.attempts[a].generation == s.generation
  }

  function OnConnect(s: State, keyReadable: bool): State {
    if s.connected || s.connecting.Some? then s
    else
      s.(connecting := Some(|s.attempts|),
         attempts := s.attempts + [Attempt(s.generation, if keyReadable then AwaitsToken else Answered(false))])
  }

  function OnTokenSettles(s: State, a: nat, ok: bool): State
    requires a < |s.attempts|
  {
    Enter(s, a, if ok && Current(s, a) then Starting else Answered(false))
  }

  function OnStartResumes(s: State, a: nat): State
    requires a < |s.attempts|
  {
    if Current(s, a) then Enter(s, a, Answered(true)).(server := Some(a), connected := true)
    else Enter(s, a, GivingBack)
  }

  function OnAttemptCleared(s: State, a: nat): State
    requires a < |s.attempts| && s.attempts[a].phase.Answered?
  {
    Enter(s, a, Over(s.attempts[a].phase.result)).(connecting := if s.connecting == Some(a) then None else s.connecting)
  }

  function OnDisconnect(s: State): State {
    s.(generation := s.generation + 1, connected := false, connecting := None, server := None,
       closing := s.closing + (if s.server.Some? then {s.server.value} else {}))
  }

  function Step(s: State, e: Event): State
    requires Enabled(s, e)
  {
    match e
    case Connect(keyReadable) => OnConnect(s, keyReadable)
    case TokenSettles(a, ok) => OnTokenSettles(s, a, ok)
    case Binds(a) => Enter(s, a, Bound).(live := s.live + {a})
    case BindFails(a) => Enter(s, a, Answered(false))
    case StartResumes(a) => OnStartResumes(s, a)
    case GivenBack(a) => Enter(s, a, Answered(false)).(live := s.live - {a})
    case AttemptCleared(a) => OnAttemptCleared(s, a)
    case Disconnect => OnDisconnect(s)
    case ServerStopped(a) => s.(closing := s.closing - {a}, live := s.live - {a})
  }

  ghost predicate Possible(s: State, events: seq<Event>)
    decreases |events|
  {
    events == [] || (Enabled(s, events[0]) && Possible(Step(s, events[0]), events[1..]))
  }

  ghost function After(s: State, events: seq<Event>): State
    requires Possible(s, events)
    decreases |events|
  {
    if events == [] then s else After(Step(s, events[0]), events[1..])
  }

  lemma {:induction false} Extend(s0: State, es: seq<Event>, s: State, e: Event)
    requires Possible(s0, es) && After(s0, es) == s && Enabled(s, e)
    ensures Possible(s0, es + [e]) && After(s0, es + [e]) == Step(s, e)
    decreases |es|
  {
    if es == [] {
      assert (es + [e])[1..] == [] && (es + [e])[0] == e;
    } else {
      Extend(Step(s0, es[0]), es[1..], s, e);
      assert (es + [e])[0] == es[0] && (es + [e])[1..] == es[1..] + [e];
    }
  }

  // ---- what every step keeps ----

  /** An attempt that still owns its listener. */
  predicate Owns(s: State, a: nat) {
    In(s, a, Bound) || In(s, a, GivingBack)
  }

  predicate Unfinished(s: State, a: nat) {
    a < |s.attempts| && !s.attempts[a].phase.Over?
  }

  /** Only the attempt in the slot belongs to the present generation, and a commit ends it. */
  ghost predicate SlotAgrees(s: State) {
    && (forall a :: 0 <= a < |s.attempts| ==> s.attempts[a].generation <= s.generation)
    && (forall a :: 0 <= a < |s.attempts| && Unfinished(s, a) && Current(s, a) ==> s.connecting == Some(a))
    && (s.connecting.Some? ==> Unfinished(s, s.connecting.value) && Current(s, s.connecting.value))
    && (s.connected <==> s.server.Some?)
    && (s.connected && s.connecting.Some? ==> In(s, s.connecting.value, Answered(true)))
  }

  /** A listener is open exactly while an attempt owns it, the adapter holds it or is stopping it. */
  ghost predicate ListenersAccounted(s: State) {
    && (forall a: nat :: a in s.live <==> Owns(s, a) || s.server == Some(a) || a in s.closing)
    && (forall a: nat :: s.server == Some(a) || a in s.closing ==>
          a < |s.attempts| && !Owns(s, a) && !In(s, a, Starting) && !In(s, a, AwaitsToken))
    && (s.server.Some? ==> s.server.value !in s.closing)
  }

  ghost predicate OnePerGeneration(s: State) {
    forall a, b :: 0 <= a < b < |s.attempts| && Unfinished(s, a) && Unfinished(s, b) ==>
      s.attempts[a].generation != s.attempts[b].generation
  }

  ghost predicate Inv(s: State) {
    SlotAgrees(s) && ListenersAccounted(s) && OnePerGeneration(s)
  }

  lemma {:induction false} StepKeeps(s: State, e: Event)
    requires Inv(s) && Enabled(s, e)
    ensures Inv(Step(s, e))
  {
    SlotKept(s, e);
    ListenersKept(s, e);
    GenerationsKept(s, e);
  }

  lemma {:induction false} SlotKept(s: State, e: Event)
    requires Inv(s) && Enabled(s, e)
    ensures SlotAgrees(Step(s, e))
  {
    if e.Connect? || e.Disconnect? || e.ServerStopped? {
      SlotKeptByCalls(s, e);
    } else if e.AttemptCleared? || e.StartResumes? {
      SlotKeptByAnswers(s, e);
    } else {
      SlotKeptByOthers(s, e);
    }
  }

  lemma {:induction false} SlotKeptByCalls(s: State, e: Event)
    requires Inv(s) && Enabled(s, e) && (e.Connect? || e.Disconnect? || e.ServerStopped?)
    ensures SlotAgrees(Step(s, e))
  {
  }

  lemma {:induction false} SlotKeptByAnswers(s: State, e: Event)
    requires Inv(s) && Enabled(s, e) && (e.AttemptCleared? || e.StartResumes?)
    ensures SlotAgrees(Step(s, e))
  {
  }

  lemma {:induction false} SlotKeptByOthers(s: State, e: Event)
    requires Inv(s) && Enabled(s, e) && (e.TokenSettles? || e.Binds? || e.BindFails? || e.GivenBack?)
    ensures SlotAgrees(Step(s, e))
  {
  }

  lemma {:induction false} ListenersKept(s: State, e: Event)
    requires Inv(s) && Enabled(s, e)
    ensures ListenersAccounted(Step(s, e))
  {
    if e.Connect? || e.Disconnect? || e.ServerStopped? {
      ListenersKeptByCalls(s, e);
    } else if e.Binds? || e.StartResumes? || e.GivenBack? {
      ListenersKeptByOwners(s, e);
    } else {
      ListenersKeptByOthers(s, e);
    }
  }

  lemma {:induction false} ListenersKeptByCalls(s: State, e: Event)
    requires Inv(s) && Enabled(s, e) && (e.Connect? || e.Disconnect? || e.ServerStopped?)
    ensures ListenersAccounted(Step(s, e))
  {
  }

  lemma {:induction false} ListenersKeptByOwners(s: State, e: Event)
    requires Inv(s) && Enabled(s, e) && (e.Binds? || e.StartResumes? || e.GivenBack?)
    ensures ListenersAccounted(Step(s, e))
  {
  }

  lemma {:induction false} ListenersKeptByOthers(s: State, e: Event)
    requires Inv(s) && Enabled(s, e) && (e.TokenSettles? || e.BindFails? || e.AttemptCleared?)
    ensures ListenersAccounted(Step(s, e))
  {
  }

  lemma {:induction false} GenerationsKept(s: State, e: Event)
    requires Inv(s) && Enabled(s, e)
    ensures OnePerGeneration(Step(s, e))
  {
    var t := Step(s, e);
    forall a, b | 0 <= a < b < |t.attempts| && Unfinished(t, a) && Unfinished(t, b)
      ensures t.attempts[a].generation != t.attempts[b].generation
    {
      assert Unfinished(s, a) && s.attempts[a].generation == t.attempts[a].generation;
      if b < |s.attempts| {
        assert Unfinished(s, b) && s.attempts[b].generation == t.attempts[b].generation;
      } else {
        assert !Current(s, a);
      }
    }
  }

  lemma {:induction false} RunsKeep(s: State, events: seq<Event>)
    requires Inv(s) && Possible(s, events)
    ensures Inv(After(s, events))
    decreases |events|
  {
    if events != [] {
      StepKeeps(s, events[0]);
      RunsKeep(Step(s, events[0]), events[1..]);
    }
  }

  // ---- the promises, on every run ----

  ghost predicate Reached(events: seq<Event>, s: State) {
    Possible(INITIAL, events) && s == After(INITIAL, events)
  }

  /** At most one attempt per generation is unfinished, and the present one's is the shared slot's. */
  lemma {:induction false} OneAttemptPerGeneration(events: seq<Event>, s: State, a: nat, b: nat)
    requires Reached(events, s) && Unfinished(s, a) && Unfinished(s, b)
    requires s.attempts[a].generation == s.attempts[b].generation
    ensures a == b
    ensures Current(s, a) <==> s.connecting == Some(a)
  {
    RunsKeep(INITIAL, events);
  }

  /** Whose step an event is. */
  function AttemptOf(e: Event): Option<nat> {
    match e
    case TokenSettles(a, _) => Some(a)
    case Binds(a) => Some(a)
    case BindFails(a) => Some(a)
    case StartResumes(a) => Some(a)
    case GivenBack(a) => Some(a)
    case AttemptCleared(a) => Some(a)
    case _ => None
  }

  /** An attempt overtaken by `disconnect()` changes no field of the adapter and never answers `true`. */
  lemma {:induction false} OvertakenChangesNothing(events: seq<Event>, s: State, e: Event, a: nat)
    requires Reached(events, s) && Enabled(s, e) && AttemptOf(e) == Some(a) && !Current(s, a)
    ensures var t := Step(s, e);
            && t.connected == s.connected && t.connecting == s.connecting
            && t.generation == s.generation && t.server == s.server
            && (In(t, a, Answered(true)) ==> In(s, a, Answered(true)))
  {
    RunsKeep(INITIAL, events);
  }

  /** Every attempt has been answered and every stop has finished. */
  predicate AtRest(s: State) {
    && (forall a :: 0 <= a < |s.attempts| ==> s.attempts[a].phase.Over? || s.attempts[a].phase.Answered?)
    && s.closing == {}
  }

  /** At rest the open listeners are exactly the held server, there when connected. */
  lemma {:induction false} RestHoldsOneListener(events: seq<Event>, s: State)
    requires Reached(events, s) && AtRest(s)
    ensures s.connected <==> s.server.Some?
    ensures s.live == if s.connected then {s.server.value} else {}
  {
    RunsKeep(INITIAL, events);
  }

  /** A caller of `connect()` is told `true` only of an attempt that committed its own listener. */
  lemma {:induction false} TrueMeansCommitted(events: seq<Event>, s: State, e: Event, a: nat)
    requires Reached(events, s) && Enabled(s, e)
    requires In(Step(s, e), a, Answered(true)) && !In(s, a, Answered(true))
    ensures e == StartResumes(a) && Step(s, e).server == Some(a) && Step(s, e).connected && a in Step(s, e).live
    ensures s.server.None? && !s.connected
  {
    RunsKeep(INITIAL, events);
  }

  /** A `connect()` nothing overtakes, from any reachable state with none pending, holds its own open listener. */
  lemma {:induction false} UndisturbedConnects(past: seq<Event>, s: State) returns (t: State)
    requires Reached(past, s) && !s.connected && s.connecting.None?
    ensures var a := |s.attempts|;
            var quiet := [Connect(true)] + [TokenSettles(a, true)] + [Binds(a)] + [StartResumes(a)];
            Possible(s, quiet) && t == After(s, quiet)
    ensures var a := |s.attempts|; t.connected && t.server == Some(a) && a in t.live && In(t, a, Answered(true))
  {
    RunsKeep(INITIAL, past);
    var a := |s.attempts|;
    var s1 := Step(s, Connect(true));
    var s2 := Step(s1, TokenSettles(a, true));
    var s3 := Step(s2, Binds(a));
    t := Step(s3, StartResumes(a));
    Extend(s, [], s, Connect(true));
    assert [] + [Connect(true)] == [Connect(true)];
    Extend(s, [Connect(true)], s1, TokenSettles(a, true));
    Extend(s, [Connect(true)] + [TokenSettles(a, true)], s2, Binds(a));
    Extend(s, [Connect(true)] + [TokenSettles(a, true)] + [Binds(a)], s3, StartResumes(a));
  }

  // ---- each attempt's webhook server ----

  /** What a step calls on the `listenerLifecycle` of attempt `a`, or settles of it. */
  function CallsOn(s: State, e: Event, a: nat): seq<Listener.Event>
    requires Enabled(s, e)
  {
    match e
    case TokenSettles(b, ok) => if b == a && ok && Current(s, a) then [Listener.Start] else []
    case Binds(b) => if b == a then [Listener.Binds(0)] else []
    case BindFails(b) => if b == a then [Listener.BindFails(0)] else []
    case StartResumes(b) => if b == a && !Current(s, a) then [Listener.Stop] else []
    case GivenBack(b) => if b == a then [Listener.Closed(0)] else []
    case Disconnect => if s.server == Some(a) then [Listener.Stop] else []
    case ServerStopped(b) => if b == a then [Listener.Closed(0)] else []
    case _ => []
  }

  ghost function AllCallsOn(s: State, events: seq<Event>, a: nat): seq<Listener.Event>
    requires Possible(s, events)
    decreases |events|
  {
    if events == [] then [] else CallsOn(s, events[0], a) + AllCallsOn(Step(s, events[0]), events[1..], a)
  }

  /** Where the listener of attempt `a` is. */
  ghost predicate ListenerAgrees(s: State, a: nat, l: Listener.State) {
    if In(s, a, Starting) then l == Listener.Step(Listener.Initial(false), Listener.Start)
    else if In(s, a, Bound) || s.server == Some(a) then
      l == Listener.State(false, true, false, Some(0), 1, {}, {0}, {})
    else if In(s, a, GivingBack) || a in s.closing then
      l == Listener.State(false, false, true, None, 1, {}, {0}, {0})
    else
      && l.binding == l.live == l.closing == {} && l.listens <= 1
      && (a >= |s.attempts| || In(s, a, AwaitsToken) ==> l == Listener.Initial(false))
  }

  /** The listener after the step, and that a call on it waited for its bind. */
  ghost predicate Agreed(s: State, e: Event, a: nat, l: Listener.State)
    requires Enabled(s, e)
  {
    var calls := CallsOn(s, e, a);
    if calls == [] then ListenerAgrees(Step(s, e), a, l)
    else
      && calls == [calls[0]] && Listener.Enabled(l, calls[0])
      && (calls[0].Start? || calls[0].Stop? ==> l.binding == {})
      && ListenerAgrees(Step(s, e), a, Listener.Step(l, calls[0]))
  }

  lemma {:induction false} StepAgrees(s: State, e: Event, a: nat, l: Listener.State)
    requires Inv(s) && ListenerAgrees(s, a, l) && Enabled(s, e)
    ensures Agreed(s, e, a, l)
  {
    if e.Connect? || e.Disconnect? || e.ServerStopped? {
      CallAgrees(s, e, a, l);
    } else if e.StartResumes? || e.GivenBack? || e.AttemptCleared? {
      AnswerAgrees(s, e, a, l);
    } else {
      OpeningAgrees(s, e, a, l);
    }
  }

  lemma {:induction false} CallAgrees(s: State, e: Event, a: nat, l: Listener.State)
    requires Inv(s) && ListenerAgrees(s, a, l) && Enabled(s, e)
    requires e.Connect? || e.Disconnect? || e.ServerStopped?
    ensures Agreed(s, e, a, l)
  {
  }

  lemma {:induction false} AnswerAgrees(s: State, e: Event, a: nat, l: Listener.State)
    requires Inv(s) && ListenerAgrees(s, a, l) && Enabled(s, e)
    requires e.StartResumes? || e.GivenBack? || e.AttemptCleared?
    ensures Agreed(s, e, a, l)
  {
  }

  lemma {:induction false} OpeningAgrees(s: State, e: Event, a: nat, l: Listener.State)
    requires Inv(s) && ListenerAgrees(s, a, l) && Enabled(s, e)
    requires e.TokenSettles? || e.Binds? || e.BindFails?
    ensures Agreed(s, e, a, l)
  {
  }

  lemma {:induction false} RunsAgree(s: State, events: seq<Event>, a: nat, l: Listener.State)
    requires Inv(s) && ListenerAgrees(s, a, l) && Possible(s, events)
    ensures var calls := AllCallsOn(s, events, a);
            && Listener.Possible(l, calls) && Listener.WaitsForBinds(l, calls)
            && Inv(After(s, events)) && ListenerAgrees(After(s, events), a, Listener.After(l, calls))
    decreases |events|
  {
    if events != [] {
      var t, now := Step(s, events[0]), CallsOn(s, events[0], a);
      var rest := AllCallsOn(t, events[1..], a);
      StepKeeps(s, events[0]);
      StepAgrees(s, events[0], a, l);
      if now == [] {
        assert now + rest == rest;
        RunsAgree(t, events[1..], a, l);
      } else {
        assert (now + rest)[0] == now[0] && (now + rest)[1..] == rest;
        RunsAgree(t, events[1..], a, Listener.Step(l, now[0]));
      }
    }
  }

  /**
   On every run each attempt uses its server as `listenerLifecycle` asks, waiting for the bind before
   its one stop; so the latches hold, and its listener is open exactly when the protocol says it is.
   */
  lemma {:induction false} OwnCallsWait(events: seq<Event>, s: State, a: nat)
    requires Reached(events, s)
    ensures var calls := AllCallsOn(INITIAL, events, a);
            && Listener.Possible(Listener.Initial(false), calls)
            && Listener.WaitsForBinds(Listener.Initial(false), calls)
            && var l := Listener.After(Listener.Initial(false), calls);
               && (0 in l.live <==> a in s.live) && l.listens <= 1
               && (l.closing != {} <==> a in s.closing || In(s, a, GivingBack))
  {
    RunsAgree(INITIAL, events, a, Listener.Initial(false));
  }

  // ---- the class ----

  class GoogleChatAdapter {
    var server: Option<nat>
    var connected: bool
    var connecting: Option<nat>
    var generation: nat
    var attempts: seq<Attempt>
    ghost var live: set<nat>
    ghost var closing: set<nat>
    ghost var events: seq<Event>  // everything that happened to this object

    ghost function View(): State
      reads this
    {
      State(connected, connecting, generation, server, attempts, live, closing)
    }

    ghost predicate Valid()
      reads this
    {
      Reached(events, View())
    }

    constructor ()
      ensures Valid() && View() == INITIAL
    {
      server, connected, connecting, generation, attempts, live, closing := None, false, None, 0, [], {}, {};
      events := [];
    }

    /** `connect()` up to its first await: the attempt whose answer the caller gets, unless connected (lines 75-87). */
    method Connect(keyReadable: bool) returns (attempt: Option<nat>)
      requires Valid()
      modifies this
      ensures Valid() && View() == Step(old(View()), Event.Connect(keyReadable))
      ensures events == old(events) + [Event.Connect(keyReadable)]
      ensures attempt == if old(connected) then None else connecting
    {
      Extend(INITIAL, events, View(), Event.Connect(keyReadable));
      events := events + [Event.Connect(keyReadable)];
      if connected { return None; }
      if connecting.Some? { return connecting; }
      attempt := Some(|attempts|);
      attempts := attempts + [Attempt(generation, if keyReadable then AwaitsToken else Answered(false))];
      connecting := attempt;
    }

    /** `disconnect()` up to its await: the listener it stops (lines 89-98). */
    method Disconnect() returns (stopped: Option<nat>)
      requires Valid()
      modifies this
      ensures Valid() && View() == Step(old(View()), Event.Disconnect) && events == old(events) + [Event.Disconnect]
      ensures stopped == old(server) && generation == old(generation) + 1
      ensures !connected && connecting.None? && server.None?
    {
      Extend(INITIAL, events, View(), Event.Disconnect);
      events := events + [Event.Disconnect];
      generation := generation + 1;
      connected := false;
      connecting := None;
      stopped := server;
      closing := closing + (if server.Some? then {server.value} else {});
      server := None;
    }

    method EnterPhase(a: nat, phase: Phase)
      requires a < |attempts|
      modifies this`attempts
      ensures View() == Enter(old(View()), a, phase)
    {
      attempts := attempts[a := attempts[a].(phase := phase)];
    }

    /** After `firstToken` (lines 249-250). */
    method OnToken(a: nat, ok: bool)
      requires Valid() && Enabled(View(), TokenSettles(a, ok))
      modifies this
      ensures Valid() && View() == Step(old(View()), TokenSettles(a, ok))
      ensures events == old(events) + [TokenSettles(a, ok)]
    {
      Extend(INITIAL, events, View(), TokenSettles(a, ok));
      events := events + [TokenSettles(a, ok)];
      if !ok || attempts[a].generation != generation {
        EnterPhase(a, Answered(false));
      } else {
        EnterPhase(a, Starting);
      }
    }

    /** The listener opens or fails to (lines 252-263). */
    method OnListen(a: nat, ok: bool)
      requires Valid() && Enabled(View(), if ok then Binds(a) else BindFails(a))
      modifies this
      ensures Valid() && View() == Step(old(View()), if ok then Binds(a) else BindFails(a))
      ensures events == old(events) + [if ok then Binds(a) else BindFails(a)]
    {
      Extend(INITIAL, events, View(), if ok then Binds(a) else BindFails(a));
      events := events + [if ok then Binds(a) else BindFails(a)];
      EnterPhase(a, if ok then Bound else Answered(false));
      if ok { live := live + {a}; }
    }

    /** After `server.start()` (lines 264-271). */
    method OnStarted(a: nat)
      requires Valid() && Enabled(View(), StartResumes(a))
      modifies this
      ensures Valid() && View() == Step(old(View()), StartResumes(a)) && events == old(events) + [StartResumes(a)]
    {
      Extend(INITIAL, events, View(), StartResumes(a));
      events := events + [StartResumes(a)];
      if attempts[a].generation != generation {
        EnterPhase(a, GivingBack);
      } else {
        EnterPhase(a, Answered(true));
        server := Some(a);
        connected := true;
      }
    }

    method OnGivenBack(a: nat)
      requires Valid() && Enabled(View(), GivenBack(a))
      modifies this
      ensures Valid() && View() == Step(old(View()), GivenBack(a)) && events == old(events) + [GivenBack(a)]
    {
      Extend(INITIAL, events, View(), GivenBack(a));
      events := events + [GivenBack(a)];
      EnterPhase(a, Answered(false));
      live := live - {a};
    }

    /** The `finally` of line 80. */
    method ClearAttempt(a: nat)
      requires Valid() && Enabled(View(), AttemptCleared(a))
      modifies this
      ensures Valid() && View() == Step(old(View()), AttemptCleared(a)) && events == old(events) + [AttemptCleared(a)]
      ensures AtRest(View()) ==> live == if server.Some? then {server.value} else {}
    {
      Extend(INITIAL, events, View(), AttemptCleared(a));
      events := events + [AttemptCleared(a)];
      EnterPhase(a, Over(attempts[a].phase.result));
      if connecting == Some(a) { connecting := None; }
      if AtRest(View()) { RestHoldsOneListener(events, View()); }
    }

    /** The `close` of a listener `disconnect()` gave up is over. */
    method OnServerStopped(ghost a: nat)
      requires Valid() && Enabled(View(), ServerStopped(a))
      modifies this
      ensures Valid() && View() == Step(old(View()), ServerStopped(a)) && events == old(events) + [ServerStopped(a)]
      ensures AtRest(View()) ==> live == if server.Some? then {server.value} else {}
    {
      Extend(INITIAL, events, View(), ServerStopped(a));
      events := events + [ServerStopped(a)];
      closing, live := closing - {a}, live - {a};
      if AtRest(View()) { RestHoldsOneListener(events, View()); }
    }
  }
}
