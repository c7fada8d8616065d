/** Raw-body capture as a machine over stream events (packages/gateway/src/webhook/express-server.ts). */
module RawBody {
  import opened Options
  import opened Utf16
  import opened Utf8Length

  /** A JavaScript number: finite, or an infinity or NaN. */
  datatype Number = Finite(value: real) | NotFinite

  datatype Event = Data(chunk: Text) | End | Error(err: nat)

  /** What the middleware does, once: call `next`, call it with the stream's error, or answer 413. */
  datatype Outcome = Continue(body: Text) | Fail(err: nat) | TooLarge

  datatype State = State(
    maxBytes: Option<real>,
    buf: Text,
    bytes: nat,
    refused: bool,
    settled: bool,
    outcomes: seq<Outcome>
  )

  datatype Configured = Limit(maxBytes: Option<real>) | RangeError

  /** `rawBodyCapture(tag, { maxBytes })`: a limit must be a finite number of zero or more. */
  function Configure(maxBytes: Option<Number>): Configured {
    match maxBytes
    case None => Limit(None)
    case Some(NotFinite) => RangeError
    case Some(Finite(x)) => if x >= 0.0 then Limit(Some(x)) else RangeError
  }

  function DeclaredLength(header: Number): real {
    if header.Finite? then header.value else 0.0
  }

  predicate Over(maxBytes: Option<real>, size: real) {
    maxBytes.Some? && size > maxBytes.value
  }

  /** The middleware is called: a stream someone already drained continues at once with an empty body. */
  function Begin(maxBytes: Option<real>, drained: bool, declared: Number): State {
    if drained then State(maxBytes, [], 0, false, true, [Continue([])])
    else State(maxBytes, [], 0, Over(maxBytes, DeclaredLength(declared)), false, [])
  }

  function Step(s: State, e: Event): State {
    if s.settled then s
    else match e
      case Data(chunk) =>
        if s.refused then s
        else
          var bytes := s.bytes + ByteLength(chunk);
          if Over(s.maxBytes, bytes as real) then s.(bytes := bytes, refused := true, buf := [])
          else s.(bytes := bytes, buf := s.buf + chunk)
      case End =>
        s.(settled := true, outcomes := s.outcomes + [if s.refused then TooLarge else Continue(s.buf)])
      case Error(err) =>
        s.(settled := true, outcomes := if s.refused then s.outcomes else s.outcomes + [Fail(err)])
  }

  function After(s: State, events: seq<Event>): State
    decreases |events|
  {
    if events == [] then s else After(Step(s, events[0]), events[1..])
  }

  lemma {:induction false} AfterOneMore(s: State, events: seq<Event>, e: Event)
    ensures After(s, events + [e]) == Step(After(s, events), e)
    decreases |events|
  {
    if events == [] {
      assert (events + [e])[1..] == [];
    } else {
      AfterOneMore(Step(s, events[0]), events[1..], e);
      assert (events + [e])[0] == events[0] && (events + [e])[1..] == events[1..] + [e];
    }
  }

  // ---- the whole run, stated without the machine ----

  /** The chunks before the first end or error. */
  function ChunksOf(events: seq<Event>): seq<Text> {
    if events == [] || !events[0].Data? then [] else [events[0].chunk] + ChunksOf(events[1..])
  }

  /** The first end or error. */
  function CloseOf(events: seq<Event>): Option<Event> {
    if events == [] then None
    else if !events[0].Data? then Some(events[0])
    else CloseOf(events[1..])
  }

  function Total(chunks: seq<Text>): nat {
    if chunks == [] then 0 else ByteLength(chunks[0]) + Total(chunks[1..])
  }

  function VerdictOf(close: Option<Event>, tooBig: bool, body: Text): seq<Outcome> {
    match close
    case Some(End) => [if tooBig then TooLarge else Continue(body)]
    case Some(Error(err)) => if tooBig then [] else [Fail(err)]
    case _ => []
  }

  /** The answer the documentation promises for a stream of these events. */
  function Verdict(maxBytes: Option<real>, declared: real, events: seq<Event>): seq<Outcome> {
    var chunks := ChunksOf(events);
    VerdictOf(CloseOf(events), Over(maxBytes, declared) || Over(maxBytes, Total(chunks) as real), Concat(chunks))
  }

  lemma {:induction false} SettledStays(s: State, events: seq<Event>)
    requires s.settled
    ensures After(s, events) == s
    decreases |events|
  {
    if events != [] {
      SettledStays(s, events[1..]);
    }
  }

  /** A stream already refused ends in 413, or in nothing when it errors. */
  lemma {:induction false} RefusedVerdict(s: State, events: seq<Event>, body: Text)
    requires !s.settled && s.refused && s.outcomes == []
    ensures After(s, events).outcomes == VerdictOf(CloseOf(events), true, body)
    decreases |events|
  {
    if events != [] {
      if events[0].Data? {
        RefusedVerdict(s, events[1..], body);
      } else {
        SettledStays(Step(s, events[0]), events[1..]);
      }
    }
  }

  /** What the bytes counted so far and the chunks to come make too big. */
  predicate Exceeds(s: State, chunks: seq<Text>) {
    chunks != [] && Over(s.maxBytes, (s.bytes + Total(chunks)) as real)
  }

  /** An open stream: the answer depends on what is held so far and on what comes. */
  lemma {:induction false} OpenVerdict(s: State, events: seq<Event>)
    requires !s.settled && !s.refused && s.outcomes == [] && !Over(s.maxBytes, s.bytes as real)
    ensures After(s, events).outcomes
            == VerdictOf(CloseOf(events), Exceeds(s, ChunksOf(events)), s.buf + Concat(ChunksOf(events)))
    decreases |events|
  {
    if events == [] {
    } else if events[0].Data? {
      OpenChunk(s, events[0].chunk, ChunksOf(events[1..]));
      assert ChunksOf(events) == [events[0].chunk] + ChunksOf(events[1..]);
      var t := Step(s, events[0]);
      if t.refused {
        RefusedVerdict(t, events[1..], s.buf + Concat(ChunksOf(events)));
      } else {
        OpenVerdict(t, events[1..]);
      }
    } else {
      SettledStays(Step(s, events[0]), events[1..]);
      assert s.buf + [] == s.buf;
    }
  }

  /** One chunk read off an open stream. */
  lemma {:induction false} OpenChunk(s: State, chunk: Text, rest: seq<Text>)
    requires !s.settled && !s.refused
    ensures var t, chunks := Step(s, Data(chunk)), [chunk] + rest;
            if t.refused then Exceeds(s, chunks)
            else Exceeds(s, chunks) == Exceeds(t, rest) && s.buf + Concat(chunks) == t.buf + Concat(rest)
                 && !Over(t.maxBytes, t.bytes as real)
  {
    var chunks := [chunk] + rest;
    assert chunks[1..] == rest;
    assert Total(chunks) == ByteLength(chunk) + Total(rest) && Concat(chunks) == chunk + Concat(rest);
    var t := Step(s, Data(chunk));
    if rest == [] { assert Total(rest) == 0; }
    assert s.bytes + Total(chunks) == s.bytes + ByteLength(chunk) + Total(rest);
    assert s.buf + (chunk + Concat(rest)) == s.buf + chunk + Concat(rest);
  }

  /** For every order of events the middleware answers exactly its verdict: never twice, nothing before the close. */
  lemma {:induction false} CaptureAnswersVerdict(
      limit: Option<Number>, maxBytes: Option<real>, declared: Number, events: seq<Event>)
    requires Configure(limit) == Limit(maxBytes)
    ensures After(Begin(maxBytes, false, declared), events).outcomes
            == Verdict(maxBytes, DeclaredLength(declared), events)
    ensures |After(Begin(maxBytes, false, declared), events).outcomes| <= 1
  {
    var s, chunks := Begin(maxBytes, false, declared), ChunksOf(events);
    if s.refused {
      RefusedVerdict(s, events, Concat(chunks));
    } else {
      OpenVerdict(s, events);
      assert [] + Concat(chunks) == Concat(chunks);
    }
  }

  /** A drained stream has its one answer at once, whatever comes after. */
  lemma {:induction false} DrainedAnswersOnce(maxBytes: Option<real>, declared: Number, events: seq<Event>)
    ensures After(Begin(maxBytes, true, declared), events).outcomes == [Continue([])]
  {
    SettledStays(Begin(maxBytes, true, declared), events);
  }

  /**
   A finite number is a limit unless it is negative. A body declared larger gets 413 at its end, whatever was
   sent; a smaller declaration, or a header that is no number, decides nothing.
   */
  lemma {:induction false} DeclaredDecides(max: real, declared: real, events: seq<Event>)
    ensures Configure(Some(Finite(max))) == if max < 0.0 then RangeError else Limit(Some(max))
    ensures 0.0 <= max < declared && CloseOf(events) == Some(End) ==>
              After(Begin(Some(max), false, Finite(declared)), events).outcomes == [TooLarge]
    ensures 0.0 <= max && declared <= max ==>
              After(Begin(Some(max), false, Finite(declared)), events)
              == After(Begin(Some(max), false, NotFinite), events)
  {
    if max >= 0.0 { CaptureAnswersVerdict(Some(Finite(max)), Some(max), Finite(declared), events); }
  }

  /** The chunks retained so far: none once refused, else their bytes are counted and within the limit. */
  ghost predicate Retains(s: State, chunks: seq<Text>) {
    s.buf == Concat(chunks) && Total(chunks) <= s.bytes && !Over(s.maxBytes, Total(chunks) as real)
  }

  lemma {:induction false} TotalAppend(a: seq<Text>, t: Text)
    ensures Total(a + [t]) == Total(a) + ByteLength(t) && Concat(a + [t]) == Concat(a) + t
  {
    if a == [] {
      assert a + [t] == [t] && [t][1..] == [];
      assert Total([t]) == ByteLength(t) + Total([]) && Concat([t]) == t + Concat([]);
    } else {
      TotalAppend(a[1..], t);
      assert (a + [t])[1..] == a[1..] + [t];
    }
  }

  lemma {:induction false} RunsRetain(s: State, chunks: seq<Text>, events: seq<Event>) returns (held: seq<Text>)
    requires Retains(s, chunks) && (!s.refused ==> Total(chunks) == s.bytes)
    requires s.maxBytes.Some? ==> s.maxBytes.value >= 0.0
    ensures Retains(After(s, events), held) && After(s, events).maxBytes == s.maxBytes
    decreases |events|
  {
    held := chunks;
    if events != [] {
      var t, next := Step(s, events[0]), chunks;
      if !s.settled && !s.refused && events[0].Data? {
        TotalAppend(chunks, events[0].chunk);
        next := if t.refused then [] else chunks + [events[0].chunk];
      }
      held := RunsRetain(t, next, events[1..]);
    }
  }

  /** The bytes of chunks put together are at most the bytes of each. */
  lemma {:induction false} BytesOfConcat(chunks: seq<Text>)
    ensures ByteLength(Concat(chunks)) <= Total(chunks)
  {
    if chunks != [] {
      BytesOfConcat(chunks[1..]);
      ByteLengthSum(chunks[0], Concat(chunks[1..]));
    }
  }

  /** At no moment, whatever the events, are more bytes held than the limit. */
  lemma {:induction false} HeldWithinLimit(
      limit: Option<Number>, maxBytes: Option<real>, drained: bool, declared: Number, events: seq<Event>)
    requires Configure(limit) == Limit(maxBytes)
    ensures !Over(maxBytes, ByteLength(After(Begin(maxBytes, drained, declared), events).buf) as real)
  {
    var held := RunsRetain(Begin(maxBytes, drained, declared), [], events);
    BytesOfConcat(held);
  }

  /** A decoder that never splits a surrogate pair makes the count the byte length of the whole body. */
  lemma {:induction false} CountIsByteLength(chunks: seq<Text>)
    requires forall i :: 0 <= i < |chunks| ==> !Joint(chunks[i], Concat(chunks[i + 1..]))
    ensures Total(chunks) == ByteLength(Concat(chunks))
  {
    if chunks != [] {
      forall i | 0 <= i < |chunks| - 1
        ensures !Joint(chunks[1..][i], Concat(chunks[1..][i + 1..]))
      {
        assert chunks[1..][i + 1..] == chunks[i + 2..];
        assert !Joint(chunks[i + 1], Concat(chunks[i + 1 + 1..]));
      }
      CountIsByteLength(chunks[1..]);
      assert !Joint(chunks[0], Concat(chunks[0 + 1..]));
      ByteLengthAppend(chunks[0], Concat(chunks[1..]));
    }
  }

  // ---- the closure ----

  /** One request's variables and listeners. */
  class Capture {
    const maxBytes: Option<real>
    var buf: Text
    var bytes: nat
    var refused: bool
    var settled: bool
    var outcomes: seq<Outcome>
    ghost const limit: Option<Number>  // what the middleware was configured with
    ghost const drained: bool
    ghost const declared: Number
    ghost var events: seq<Event>       // everything that happened on this request

    ghost function View(): State
      reads this
    {
      State(maxBytes, buf, bytes, refused, settled, outcomes)
    }

    ghost predicate Valid()
      reads this
    {
      Configure(limit) == Limit(maxBytes) && View() == After(Begin(maxBytes, drained, declared), events)
    }

    constructor (ghost limit: Option<Number>, maxBytes: Option<real>, drained: bool, declared: Number)
      requires Configure(limit) == Limit(maxBytes)
      ensures Valid() && View() == Begin(maxBytes, drained, declared)
    {
      this.limit, this.maxBytes, this.drained, this.declared := limit, maxBytes, drained, declared;
      buf, bytes, settled, refused, outcomes, events := [], 0, false, false, [], [];
      if drained {
        settled, outcomes := true, [Continue([])];
      } else {
        refused := maxBytes.Some? && DeclaredLength(declared) > maxBytes.value;
      }
    }

    method OnData(chunk: Text)
      requires Valid()
      modifies this
      ensures Valid() && View() == Step(old(View()), Data(chunk)) && events == old(events) + [Data(chunk)]
      ensures !Over(maxBytes, ByteLength(buf) as real)
    {
      AfterOneMore(Begin(maxBytes, drained, declared), events, Data(chunk));
      events := events + [Data(chunk)];
      HeldWithinLimit(limit, maxBytes, drained, declared, events);
      if refused || settled { return; }
      bytes := bytes + ByteLength(chunk);
      if maxBytes.Some? && bytes as real > maxBytes.value {
        refused, buf := true, [];
        return;
      }
      buf := buf + chunk;
    }

    method OnEnd()
      requires Valid()
      modifies this
      ensures Valid() && View() == Step(old(View()), End) && events == old(events) + [End]
      ensures !drained ==> outcomes == Verdict(maxBytes, DeclaredLength(declared), events)
    {
      AfterOneMore(Begin(maxBytes, drained, declared), events, End);
      events := events + [End];
      if !drained { CaptureAnswersVerdict(limit, maxBytes, declared, events); }
      if settled { return; }
      settled := true;
      if refused {
        outcomes := outcomes + [TooLarge];
        return;
      }
      outcomes := outcomes + [Continue(buf)];
    }

    method OnError(err: nat)
      requires Valid()
      modifies this
      ensures Valid() && View() == Step(old(View()), Error(err)) && events == old(events) + [Error(err)]
      ensures !drained ==> outcomes == Verdict(maxBytes, DeclaredLength(declared), events)
    {
      AfterOneMore(Begin(maxBytes, drained, declared), events, Error(err));
      events := events + [Error(err)];
      if !drained { CaptureAnswersVerdict(limit, maxBytes, declared, events); }
      if settled { return; }
      settled := true;
      if refused { return; }
      outcomes := outcomes + [Fail(err)];
    }
  }
}

/** The start/stop latches of a webhook listener (packages/gateway/src/webhook/express-server.ts). */
module Listener {
  import opened Options

  datatype State = State(
    injected: bool,
    started: bool,
    stopped: bool,
    listener: Option<nat>,
    listens: nat,          // calls of `listen`
    binding: set<nat>,    // listeners neither bound nor failed yet
    live: set<nat>,       // listeners bound and not closed
    closing: set<nat>     // listeners whose `close` is pending
  )

  datatype Event = Start | Binds(listener: nat) | BindFails(listener: nat) | Stop | Closed(listener: nat)

  function Initial(injected: bool): State {
    State(injected, false, false, None, 0, {}, {}, {})
  }

  predicate Enabled(s: State, e: Event) {
    match e
    case Binds(k) => k in s.binding
    case BindFails(k) => k in s.binding
    case Closed(k) => k in s.closing
    case _ => true
  }

  function Step(s: State, e: Event): State
    requires Enabled(s, e)
  {
    match e
    case Start =>
      if s.started || s.injected then s.(started := true)
      else
        s.(stopped := false, listener := Some(s.listens), listens := s.listens + 1,
           binding := s.binding + {s.listens})
    case Binds(k) => s.(started := true, binding := s.binding - {k}, live := s.live + {k})
    case BindFails(k) => s.(listener := None, binding := s.binding - {k})
    case Stop =>
      if s.stopped then s
      else s.(stopped := true, started := false, listener := None,
              closing := s.closing + (if s.listener.Some? then {s.listener.value} else {}))
    case Closed(k) => s.(closing := s.closing - {k}, live := s.live - {k})
  }

  ghost predicate Possible(s: State, events: seq<Event>)
    decreases |events|
  {
    events == [] || (Enabled(s, events[0]) && Possible(Step(s, events[0]), events[1..]))
  }

  ghost function After(s: State, events: seq<Event>): State
    requires Possible(s, events)
    decreases |events|
  {
    if events == [] then s else After(Step(s, events[0]), events[1..])
  }

  lemma {:induction false} Extend(s0: State, es: seq<Event>, s: State, e: Event)
    requires Possible(s0, es) && After(s0, es) == s && Enabled(s, e)
    ensures Possible(s0, es + [e]) && After(s0, es + [e]) == Step(s, e)
    decreases |es|
  {
    if es == [] {
      assert (es + [e])[1..] == [] && (es + [e])[0] == e;
    } else {
      Extend(Step(s0, es[0]), es[1..], s, e);
      assert (es + [e])[0] == es[0] && (es + [e])[1..] == es[1..] + [e];
    }
  }

  /** Every call waits for a pending bind; a pending close need not be waited for. */
  ghost predicate WaitsForBinds(s: State, events: seq<Event>)
    requires Possible(s, events)
    decreases |events|
  {
    events == [] ||
    ((events[0].Start? || events[0].Stop? ==> s.binding == {}) && WaitsForBinds(Step(s, events[0]), events[1..]))
  }

  ghost predicate Inv(s: State) {
    && s.binding <= (if s.listener.Some? then {s.listener.value} else {})
    && s.live == (if s.listener.Some? && s.binding == {} then {s.listener.value} else {}) + s.closing
    && (s.listener.Some? ==>
          s.listener.value < s.listens && s.listener.value !in s.closing && !s.injected && !s.stopped)
    && (forall k :: k in s.closing ==> k < s.listens)
    && (s.binding != {} || (s.stopped && !s.injected) ==> !s.started)
    && (!s.injected && s.binding == {} ==> (s.started <==> s.listener.Some?))
  }

  lemma {:induction false} StepKeeps(s: State, e: Event)
    requires Inv(s) && Enabled(s, e) && (e.Start? || e.Stop? ==> s.binding == {})
    ensures Inv(Step(s, e)) && Step(s, e).injected == s.injected
  {
  }

  lemma {:induction false} RunsKeep(s: State, events: seq<Event>)
    requires Inv(s) && Possible(s, events) && WaitsForBinds(s, events)
    ensures Inv(After(s, events)) && After(s, events).injected == s.injected
    decreases |events|
  {
    if events != [] {
      StepKeeps(s, events[0]);
      RunsKeep(Step(s, events[0]), events[1..]);
    }
  }

  /**
   While calls wait for binds: whenever none is pending, the listeners open are the held one and those
   being closed; a start opens one exactly when none is held; a stop closes the one held.
   */
  lemma {:induction false} LatchesHold(injected: bool, events: seq<Event>, s: State)
    requires Possible(Initial(injected), events) && WaitsForBinds(Initial(injected), events)
    requires s == After(Initial(injected), events) && s.binding == {}
    ensures var held := if s.listener.Some? then {s.listener.value} else {};
            s.live == held + s.closing && Step(s, Stop).closing == s.closing + held && Step(s, Stop).listener.None?
    ensures !injected ==> (s.started <==> s.listener.Some?)
    ensures !injected ==> (Step(s, Start).listens == s.listens + 1 <==> s.listener.None?)
    ensures injected ==> s.live == {} && Step(s, Start).listens == s.listens
  {
    RunsKeep(Initial(injected), events);
    InjectedOpensNothing(Initial(injected), events);
  }

  lemma {:induction false} InjectedOpensNothing(s: State, events: seq<Event>)
    requires s.injected ==> s.live == s.closing == s.binding == {} && s.listener.None?
    requires Possible(s, events)
    ensures var t := After(s, events); t.injected == s.injected && (s.injected ==> t.live == {})
    decreases |events|
  {
    if events != [] {
      InjectedOpensNothing(Step(s, events[0]), events[1..]);
    }
  }

  // ---- a call that does not wait ----

  /** An open listener nobody holds. */
  predicate Orphan(s: State, k: nat) {
    k in s.live && s.listener != Some(k) && k !in s.closing && k < s.listens
  }

  /** No start and no stop ever closes it. */
  lemma {:induction false} OrphanStays(s: State, k: nat, events: seq<Event>)
    requires Orphan(s, k) && Possible(s, events)
    ensures Orphan(After(s, events), k)
    decreases |events|
  {
    if events != [] {
      OrphanStays(Step(s, events[0]), k, events[1..]);
    }
  }

  /** From every state reached by calls that waited, a start under a pending bind can orphan its listener. */
  lemma {:induction false} StartUnderBindLeaks(injected: bool, events: seq<Event>, s: State) returns (k: nat)
    requires Possible(Initial(injected), events) && WaitsForBinds(Initial(injected), events)
    requires s == After(Initial(injected), events) && s.binding != {}
    ensures Possible(s, [Start] + [Binds(k)]) && Orphan(After(s, [Start] + [Binds(k)]), k)
    ensures var t := After(s, [Start] + [Binds(k)]);
            forall more :: Possible(t, more) ==> Orphan(After(t, more), k)
  {
    RunsKeep(Initial(injected), events);
    k := s.listener.value;
    assert s.binding == {k};
    var s1 := Step(s, Start);
    Extend(s, [], s, Start);
    assert [] + [Start] == [Start];
    Extend(s, [Start], s1, Binds(k));
    var t := After(s, [Start] + [Binds(k)]);
    forall more | Possible(t, more)
      ensures Orphan(After(t, more), k)
    {
      OrphanStays(t, k, more);
    }
  }

  /** Started and stopped at once, with no listener: no call opens or closes anything any more. */
  predicate Dead(s: State) {
    s.started && s.stopped && s.listener.None? && !s.injected && s.binding == {}
  }

  lemma {:induction false} DeadStays(s: State, events: seq<Event>)
    requires Dead(s) && Possible(s, events)
    ensures Dead(After(s, events)) && After(s, events).listens == s.listens
    ensures After(s, events).closing <= s.closing && After(s, events).live <= s.live
    decreases |events|
  {
    if events != [] {
      DeadStays(Step(s, events[0]), events[1..]);
    }
  }

  /**
   And a stop that overtakes a bind can leave the latches dead, if the callback of `listen` still comes
   after the `close`; a `net.Server` of Node drops it then, another `ListenableApp` need not.
   */
  lemma {:induction false} StopUnderBindDies(injected: bool, events: seq<Event>, s: State) returns (k: nat)
    requires Possible(Initial(injected), events) && WaitsForBinds(Initial(injected), events)
    requires s == After(Initial(injected), events) && s.binding != {}
    ensures Possible(s, [Stop] + [Binds(k)]) && Dead(After(s, [Stop] + [Binds(k)]))
    ensures var t := After(s, [Stop] + [Binds(k)]);
            forall more :: Possible(t, more) ==> Dead(After(t, more)) && After(t, more).listens == t.listens
  {
    RunsKeep(Initial(injected), events);
    k := s.listener.value;
    assert s.binding == {k};
    var s1 := Step(s, Stop);
    Extend(s, [], s, Stop);
    assert [] + [Stop] == [Stop];
    Extend(s, [Stop], s1, Binds(k));
    var t := Step(s1, Binds(k));
    assert t.binding == {};
    forall more | Possible(t, more)
      ensures Dead(After(t, more)) && After(t, more).listens == t.listens
    {
      DeadStays(t, more);
    }
  }

  // ---- the closure ----

  /** `listenerLifecycle`: its two latches and its listener. */
  class ListenerLifecycle {
    const injected: bool
    var started: bool
    var stopped: bool
    var listener: Option<nat>
    var listens: nat
    ghost var binding: set<nat>
    ghost var live: set<nat>
    ghost var closing: set<nat>
    ghost var events: seq<Event>  // everything that happened to this object

    ghost function View(): State
      reads this
    {
      State(injected, started, stopped, listener, listens, binding, live, closing)
    }

    ghost predicate Valid()
      reads this
    {
      Possible(Initial(injected), events) && View() == After(Initial(injected), events)
    }

    constructor (injected: bool)
      ensures Valid() && View() == Initial(injected)
    {
      this.injected := injected;
      started, stopped, listener, listens := false, false, None, 0;
      binding, live, closing, events := {}, {}, {}, [];
    }

    /** `start()` up to its await: the listener it opens, if any (lines 207-224). */
    method BeginStart() returns (opens: Option<nat>)
      requires Valid()
      modifies this
      ensures Valid() && View() == Step(old(View()), Start) && events == old(events) + [Start]
      ensures opens == if old(started) || injected then None else listener
    {
      Extend(Initial(injected), events, View(), Start);
      events := events + [Start];
      if started || injected {
        started := true;
        return None;
      }
      stopped := false;
      opens := Some(listens);
      listener, binding := opens, binding + {listens};
      listens := listens + 1;
    }

    /** The bind succeeds or fails (lines 217-229). */
    method OnListen(k: nat, ok: bool)
      requires Valid() && Enabled(View(), if ok then Binds(k) else BindFails(k))
      modifies this
      ensures Valid() && View() == Step(old(View()), if ok then Binds(k) else BindFails(k))
    {
      Extend(Initial(injected), events, View(), if ok then Binds(k) else BindFails(k));
      events := events + [if ok then Binds(k) else BindFails(k)];
      binding := binding - {k};
      if ok {
        started, live := true, live + {k};
      } else {
        listener := None;
      }
    }

    /** `stop()` up to its await: the listener it closes, if any (lines 231-241). */
    method BeginStop() returns (closes: Option<nat>)
      requires Valid()
      modifies this
      ensures Valid() && View() == Step(old(View()), Stop) && events == old(events) + [Stop]
      ensures closes == if old(stopped) then None else old(listener)
      ensures old(WaitsForBinds(Initial(injected), events)) && old(binding) == {} ==>
                live == closing && (old(listener).Some? ==> old(listener).value in closing)
    {
      if WaitsForBinds(Initial(injected), events) { RunsKeep(Initial(injected), events); }
      Extend(Initial(injected), events, View(), Stop);
      events := events + [Stop];
      if stopped { return None; }
      stopped := true;
      started := false;
      closes := listener;
      closing := closing + (if listener.Some? then {listener.value} else {});
      listener := None;
    }
  }
}
