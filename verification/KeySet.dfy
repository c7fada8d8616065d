/**
 A published key set: stale-while-revalidate history, at most one in flight and never closer together
 than an interval (packages/gateway-teams/src/published-key-set.ts).

 Time is the monotonic clock in milliseconds; `None` stands for minus infinity. What one read yields
 (`publishedKeys`) is a non-empty map of keys or a failure.
 */
module KeySet {
  import opened Options

  type Kid = nat
  type Key = nat

  datatype Reply = Good(keys: map<Kid, Key>) | Bad(why: nat)

  datatype Done = Done(at: real, reply: Reply)

  /** One read: when it started, what it gave and when, and when its `finally` ran. */
  datatype Read = Read(started: real, done: Option<Done>, ended: Option<real>)

  /** A lookup waiting for the read it found, or for none. */
  datatype Lookup = Lookup(kid: Kid, asked: real, on: Option<nat>)

  datatype Answer = Listed(key: Key) | Unlisted | Unavailable(why: Option<nat>)

  datatype Timing = Timing(interval: real, maxAge: real)

  /** The constants of lines 21 and 29. */
  const TEAMS := Timing(10000.0, 3600000.0)

  datatype State = State(
    timing: Timing,
    // variables of the closure
    held: Option<map<Kid, Key>>,
    readAt: Option<real>,
    nextReadAt: Option<real>,
    lastFailure: Option<nat>,
    reading: Option<nat>,
    // the world: the clock, every read so far, the lookups waiting and what the others were answered
    clock: real,
    history: seq<Read>,
    waiting: map<nat, Lookup>,
    answers: map<nat, Answer>,
    asked: nat
  )

  datatype Event =
    | Ask(kid: Kid)
    | ReplyArrives(read: nat, reply: Reply)
    | ReadEnds(read: nat)
    | Resume(lookup: nat)
    | Tick(ms: real)

  function Initial(timing: Timing): State {
    State(timing, None, None, None, None, None, 0.0, [], map[], map[], 0)
  }

  predicate Ended(s: State, i: nat) {
    i < |s.history| && s.history[i].ended.Some?
  }

  predicate Enabled(s: State, e: Event) {
    match e
    case Ask(_) => true
    case ReplyArrives(i, r) => i < |s.history| && s.history[i].done.None? && (r.Good? ==> r.keys != map[])
    case ReadEnds(i) => i < |s.history| && s.history[i].done.Some? && s.history[i].ended.None?
    case Resume(l) => l in s.waiting && (s.waiting[l].on.None? || Ended(s, s.waiting[l].on.value))
    case Tick(ms) => ms >= 0.0
  }

  // ---- specification of the steps ----

  predicate MayRead(s: State) {
    s.reading.None? && (s.nextReadAt.None? || s.clock >= s.nextReadAt.value)
  }

  /** `currentRead`: start a read when none is in flight and the interval allows one. */
  function CurrentRead(s: State): State {
    if MayRead(s) then s.(reading := Some(|s.history|), history := s.history + [Read(s.clock, None, None)]) else s
  }

  predicate Aged(s: State) {
    s.readAt.None? || s.clock - s.readAt.value >= s.timing.maxAge
  }

  function OnAsk(s: State, kid: Kid): State {
    var s' := s.(asked := s.asked + 1);
    if s.held.Some? && kid in s.held.value then
      (if Aged(s) then CurrentRead(s') else s').(answers := s.answers[s.asked := Listed(s.held.value[kid])])
    else
      var t := CurrentRead(s');
      t.(waiting := s.waiting[s.asked := Lookup(kid, s.clock, t.reading)])
  }

  function AnswerNow(s: State, kid: Kid): Answer {
    if s.held.Some? && kid in s.held.value then Listed(s.held.value[kid])
    else if s.held.None? || s.lastFailure.Some? then Unavailable(s.lastFailure)
    else Unlisted
  }

  function OnReply(s: State, i: nat, r: Reply): State
    requires i < |s.history|
  {
    var s' := s.(history := s.history[i := s.history[i].(done := Some(Done(s.clock, r)))]);
    match r
    case Good(keys) => s'.(lastFailure := None, held := Some(keys), readAt := Some(s.clock))
    case Bad(why) => s'.(lastFailure := Some(why))
  }

  function OnReadEnds(s: State, i: nat): State
    requires i < |s.history|
  {
    s.(history := s.history[i := s.history[i].(ended := Some(s.clock))],
       nextReadAt := Some(s.clock + s.timing.interval), reading := None)
  }

  function Step(s: State, e: Event): State
    requires Enabled(s, e)
  {
    match e
    case Ask(kid) => OnAsk(s, kid)
    case ReplyArrives(i, r) => OnReply(s, i, r)
    case ReadEnds(i) => OnReadEnds(s, i)
    case Resume(l) =>
      s.(waiting := s.waiting - {l}, answers := s.answers[l := AnswerNow(s, s.waiting[l].kid)])
    case Tick(ms) => s.(clock := s.clock + ms)
  }

  ghost predicate Possible(s: State, events: seq<Event>)
    decreases |events|
  {
    events == [] || (Enabled(s, events[0]) && Possible(Step(s, events[0]), events[1..]))
  }

  ghost function After(s: State, events: seq<Event>): State
    requires Possible(s, events)
    decreases |events|
  {
    if events == [] then s else After(Step(s, events[0]), events[1..])
  }

  lemma {:induction false} Extend(s0: State, es: seq<Event>, s: State, e: Event)
    requires Possible(s0, es) && After(s0, es) == s && Enabled(s, e)
    ensures Possible(s0, es + [e]) && After(s0, es + [e]) == Step(s, e)
    decreases |es|
  {
    if es == [] {
      assert (es + [e])[1..] == [] && (es + [e])[0] == e;
    } else {
      Extend(Step(s0, es[0]), es[1..], s, e);
      assert (es + [e])[0] == es[0] && (es + [e])[1..] == es[1..] + [e];
    }
  }

  // ---- what the variables mean, read off the history ----

  /** The keys of the latest read that succeeded, and when it did. */
  function LatestGood(history: seq<Read>): Option<Done> {
    if history == [] then None
    else
      var r := history[|history| - 1];
      if r.done.Some? && r.done.value.reply.Good? then r.done else LatestGood(history[..|history| - 1])
  }

  /** What the latest read that completed gave. */
  function LatestReply(history: seq<Read>): Option<Reply> {
    if history == [] then None
    else
      var r := history[|history| - 1];
      if r.done.Some? then Some(r.done.value.reply) else LatestReply(history[..|history| - 1])
  }

  /** When the latest read that is over ended. */
  function LatestEnd(history: seq<Read>): Option<real> {
    if history == [] then None
    else
      var r := history[|history| - 1];
      if r.ended.Some? then r.ended else LatestEnd(history[..|history| - 1])
  }

  /** Only the newest read can be in flight, and each started an interval after the one before ended. */
  ghost predicate ReadsApart(s: State) {
    && s.timing.interval > 0.0
    && (forall i :: 0 <= i < |s.history| - 1 ==> s.history[i].ended.Some?)
    && (forall i :: 0 <= i < |s.history| ==>
          && (s.history[i].ended.Some? ==> s.history[i].done.Some? && s.history[i].ended.value <= s.clock)
          && (s.history[i].ended.Some? ==> s.history[i].ended.value >= s.history[i].started)
          && s.history[i].started <= s.clock)
    && (forall i :: 0 < i < |s.history| ==>
          s.history[i].started >= s.history[i - 1].ended.value + s.timing.interval)
    && s.reading == (if |s.history| > 0 && s.history[|s.history| - 1].ended.None? then Some(|s.history| - 1) else None)
  }

  /** The variables are what the history says. */
  ghost predicate ReadsOff(s: State) {
    && s.nextReadAt == (match LatestEnd(s.history)
                        case None => None
                        case Some(t) => Some(t + s.timing.interval))
    && s.held == (match LatestGood(s.history)
                  case None => None
                  case Some(d) => (match d.reply case Good(keys) => Some(keys) case Bad(_) => None))
    && s.readAt == (match LatestGood(s.history)
                    case None => None
                    case Some(d) => Some(d.at))
    && s.lastFailure == (match LatestReply(s.history)
                         case Some(Bad(why)) => Some(why)
                         case _ => None)
  }

  /** Read `i` is over, and ended later than an interval before `asked`. */
  predicate Recent(s: State, i: nat, asked: real) {
    Ended(s, i) && s.history[i].ended.value > asked - s.timing.interval
  }

  /** What a waiting lookup will have been answered from. */
  ghost predicate WaitIsRecent(s: State, w: Lookup) {
    && w.asked <= s.clock
    && match w.on
       case None => exists i :: Recent(s, i, w.asked)
       case Some(i) => i < |s.history| && (Ended(s, i) ==> s.history[i].ended.value >= w.asked)
  }

  ghost predicate Inv(s: State) {
    ReadsApart(s) && ReadsOff(s) && AllRecent(s)
  }

  ghost predicate AllRecent(s: State) {
    forall l :: l in s.waiting ==> l < s.asked && WaitIsRecent(s, s.waiting[l])
  }

  // ---- every step keeps it ----

  /** A read without a reply shows in nothing read off the history. */
  lemma {:induction false} NewReadUnseen(history: seq<Read>, r: Read)
    requires r.done.None? && r.ended.None?
    ensures LatestGood(history + [r]) == LatestGood(history)
    ensures LatestReply(history + [r]) == LatestReply(history)
    ensures LatestEnd(history + [r]) == LatestEnd(history)
  {
    assert (history + [r])[..|history|] == history;
  }

  /** The last read completing or ending shows as just that. */
  lemma {:induction false} LastReadSeen(history: seq<Read>, r: Read)
    requires history != [] && r.done.Some?
    ensures var h := history[|history| - 1 := r];
            && LatestReply(h) == Some(r.done.value.reply)
            && (r.done.value.reply.Good? ==> LatestGood(h) == r.done)
            && (r.done.value.reply.Bad? ==> LatestGood(h) == LatestGood(history[..|history| - 1]))
            && LatestEnd(h) == (if r.ended.Some? then r.ended else LatestEnd(history[..|history| - 1]))
  {
    assert history[|history| - 1 := r][..|history| - 1] == history[..|history| - 1];
  }

  lemma {:induction false} EarlierEnded(s: State)
    requires ReadsApart(s) && s.history != []
    ensures var last := |s.history| - 1; s.history[last].ended.Some? ==> LatestEnd(s.history) == s.history[last].ended
  {
  }

  lemma {:induction false} StartKeeps(s: State)
    requires ReadsApart(s) && ReadsOff(s)
    ensures ReadsApart(CurrentRead(s)) && ReadsOff(CurrentRead(s))
  {
    if MayRead(s) {
      NewReadUnseen(s.history, Read(s.clock, None, None));
      if s.history != [] { EarlierEnded(s); }
      StartApart(s);
    }
  }

  lemma {:induction false} StartApart(s: State)
    requires ReadsApart(s) && MayRead(s)
    requires s.history != [] ==>
               s.nextReadAt == Some(s.history[|s.history| - 1].ended.value + s.timing.interval)
    ensures ReadsApart(CurrentRead(s))
  {
  }

  lemma {:induction false} ReplyKeeps(s: State, i: nat, r: Reply)
    requires ReadsApart(s) && ReadsOff(s) && Enabled(s, ReplyArrives(i, r))
    ensures ReadsApart(OnReply(s, i, r)) && ReadsOff(OnReply(s, i, r))
  {
    assert i == |s.history| - 1;
    LastReadSeen(s.history, s.history[i].(done := Some(Done(s.clock, r))));
  }

  lemma {:induction false} EndKeeps(s: State, i: nat)
    requires ReadsApart(s) && ReadsOff(s) && Enabled(s, ReadEnds(i))
    ensures ReadsApart(OnReadEnds(s, i)) && ReadsOff(OnReadEnds(s, i))
  {
    assert i == |s.history| - 1;
    LastReadSeen(s.history, s.history[i].(ended := Some(s.clock)));
  }

  /** A wait stays recent while reads are added and completed and time passes. */
  lemma {:induction false} WaitStays(s: State, t: State, w: Lookup)
    requires WaitIsRecent(s, w) && Onwards(s, t)
    ensures WaitIsRecent(t, w)
  {
    if w.on.None? {
      var i :| Recent(s, i, w.asked);
      assert Recent(t, i, w.asked);
    }
  }

  /** A lookup that must wait finds a read in flight, or one that ended within the interval. */
  lemma {:induction false} AskIsRecent(s: State, kid: Kid)
    requires ReadsApart(s) && ReadsOff(s)
    ensures WaitIsRecent(CurrentRead(s), Lookup(kid, s.clock, CurrentRead(s).reading))
  {
    if !MayRead(s) && s.reading.None? {
      var last := |s.history| - 1;
      assert LatestEnd(s.history) == s.history[last].ended;
      assert Recent(s, last, s.clock);
    }
  }

  /** No read ends in the past, and none that ended changes. */
  ghost predicate Onwards(s: State, t: State) {
    && s.clock <= t.clock && s.timing == t.timing && |s.history| <= |t.history|
    && (forall i :: 0 <= i < |s.history| && s.history[i].ended.Some? ==> t.history[i].ended == s.history[i].ended)
    && (forall i :: 0 <= i < |s.history| && s.history[i].ended.None? && t.history[i].ended.Some? ==>
          t.history[i].ended.value >= s.clock)
  }

  lemma {:induction false} AllStay(s: State, t: State)
    requires AllRecent(s) && Onwards(s, t) && s.asked <= t.asked
    requires forall l :: l in t.waiting ==> l in s.waiting && t.waiting[l] == s.waiting[l]
    ensures AllRecent(t)
  {
    forall l | l in t.waiting
      ensures l < t.asked && WaitIsRecent(t, t.waiting[l])
    {
      WaitStays(s, t, s.waiting[l]);
    }
  }

  lemma {:induction false} InvOnStart(s: State)
    requires Inv(s)
    ensures Inv(CurrentRead(s))
  {
    StartKeeps(s);
    AllStay(s, CurrentRead(s));
  }

  /** Nothing reads the answers given, and a number handed out only rises. */
  lemma {:induction false} InvIgnoresAnswers(s: State, t: State)
    requires Inv(s) && s.asked <= t.asked && t == s.(asked := t.asked, answers := t.answers)
    ensures Inv(t)
  {
    AllStay(s, t);
  }

  lemma {:induction false} AskKeeps(s: State, kid: Kid)
    requires Inv(s)
    ensures Inv(OnAsk(s, kid))
  {
    var s' := s.(asked := s.asked + 1);
    InvIgnoresAnswers(s, s');
    InvOnStart(s');
    if s.held.Some? && kid in s.held.value {
      ListedKeeps(s, kid, s', if Aged(s) then CurrentRead(s') else s');
    } else {
      AskIsRecent(s', kid);
      WaitingKeeps(s, kid, s', CurrentRead(s'));
    }
  }

  lemma {:induction false} ListedKeeps(s: State, kid: Kid, s': State, c: State)
    requires s' == s.(asked := s.asked + 1) && c == (if Aged(s) then CurrentRead(s') else s') && Inv(c)
    requires s.held.Some? && kid in s.held.value
    ensures Inv(OnAsk(s, kid))
  {
    var t := OnAsk(s, kid);
    assert t == c.(answers := t.answers);
    InvIgnoresAnswers(c, t);
  }

  lemma {:induction false} WaitingKeeps(s: State, kid: Kid, s': State, c: State)
    requires s' == s.(asked := s.asked + 1) && c == CurrentRead(s') && Inv(c)
    requires WaitIsRecent(c, Lookup(kid, s.clock, c.reading))
    requires !(s.held.Some? && kid in s.held.value)
    ensures Inv(OnAsk(s, kid))
  {
    var t := OnAsk(s, kid);
    assert c.waiting == s.waiting;
    assert t == c.(waiting := c.waiting[s.asked := Lookup(kid, s.clock, c.reading)]);
    WaitAdded(c, t, s.asked);
  }

  lemma {:induction false} WaitAdded(c: State, t: State, l: nat)
    requires ReadsApart(c) && ReadsOff(c) && AllRecent(c) && l < c.asked
    requires l in t.waiting && t == c.(waiting := c.waiting[l := t.waiting[l]])
    requires WaitIsRecent(c, t.waiting[l])
    ensures Inv(t)
  {
    forall k | k in t.waiting
      ensures k < t.asked && WaitIsRecent(t, t.waiting[k])
    {
      WaitStays(c, t, t.waiting[k]);
    }
  }

  lemma {:induction false} InvOnReply(s: State, i: nat, r: Reply)
    requires Inv(s) && Enabled(s, ReplyArrives(i, r))
    ensures Inv(OnReply(s, i, r))
  {
    ReplyKeeps(s, i, r);
    AllStay(s, OnReply(s, i, r));
  }

  lemma {:induction false} InvOnEnd(s: State, i: nat)
    requires Inv(s) && Enabled(s, ReadEnds(i))
    ensures Inv(OnReadEnds(s, i))
  {
    EndKeeps(s, i);
    AllStay(s, OnReadEnds(s, i));
  }

  lemma {:induction false} InvOnResume(s: State, l: nat)
    requires Inv(s) && Enabled(s, Resume(l))
    ensures Inv(Step(s, Resume(l)))
  {
    var t := Step(s, Resume(l));
    var u := s.(waiting := t.waiting);
    AllStay(s, u);
    InvIgnoresAnswers(u, t);
  }

  lemma {:induction false} InvOnTick(s: State, ms: real)
    requires Inv(s) && Enabled(s, Tick(ms))
    ensures Inv(Step(s, Tick(ms)))
  {
    var t := Step(s, Tick(ms));
    AllStay(s, t);
    assert ReadsApart(t);
  }

  lemma {:induction false} StepKeeps(s: State, e: Event)
    requires Inv(s) && Enabled(s, e)
    ensures Inv(Step(s, e))
  {
    match e {
      case Ask(kid) => AskKeeps(s, kid);
      case ReplyArrives(i, r) => InvOnReply(s, i, r);
      case ReadEnds(i) => InvOnEnd(s, i);
      case Resume(l) => InvOnResume(s, l);
      case Tick(ms) => InvOnTick(s, ms);
    }
  }

  lemma {:induction false} RunsKeep(s: State, events: seq<Event>)
    requires Inv(s) && Possible(s, events)
    ensures Inv(After(s, events)) && After(s, events).timing == s.timing
    decreases |events|
  {
    if events != [] {
      StepKeeps(s, events[0]);
      RunsKeep(Step(s, events[0]), events[1..]);
    }
  }

  // ---- the promises, on every run ----

  ghost predicate Reached(timing: Timing, events: seq<Event>, s: State) {
    timing.interval > 0.0 && Possible(Initial(timing), events) && s == After(Initial(timing), events)
  }

  /** At most one read is in flight, and a read starts at least the interval after the one before ended. */
  lemma {:induction false} ReadsNeverCrowd(timing: Timing, events: seq<Event>, s: State, i: nat, j: nat)
    requires Reached(timing, events, s) && i < j < |s.history|
    ensures Ended(s, i) && s.history[j].started >= s.history[i].ended.value + timing.interval
  {
    RunsKeep(Initial(timing), events);
    StartsAfter(s, i, j);
  }

  lemma {:induction false} StartsAfter(s: State, i: nat, j: nat)
    requires ReadsApart(s) && i < j < |s.history|
    ensures s.history[j].started >= s.history[i].ended.value + s.timing.interval
    decreases j
  {
    if i + 1 < j {
      StartsAfter(s, i, j - 1);
      assert s.history[j - 1].ended.value >= s.history[j - 1].started;
    }
  }

  /** The copy held is that of the latest read that succeeded, and never goes once there. */
  lemma {:induction false} HeldIsLatest(timing: Timing, events: seq<Event>, s: State, e: Event)
    requires Reached(timing, events, s) && Enabled(s, e)
    ensures s.held.Some? <==> LatestGood(s.history).Some?
    ensures s.held.Some? ==> LatestGood(s.history).value.reply == Good(s.held.value)
    ensures s.held.Some? ==> Step(s, e).held.Some?
    ensures Step(s, e).held != s.held ==> exists i :: e == ReplyArrives(i, Good(Step(s, e).held.value))
  {
    RunsKeep(Initial(timing), events);
    match e {
      case ReplyArrives(i, r) =>
        assert r.Good? ==> e == ReplyArrives(i, Good(Step(s, e).held.value));
      case _ =>
    }
    LatestGoodIsGood(s.history);
  }

  lemma {:induction false} LatestGoodIsGood(history: seq<Read>)
    ensures LatestGood(history).Some? ==> LatestGood(history).value.reply.Good?
  {
    if history != [] {
      LatestGoodIsGood(history[..|history| - 1]);
    }
  }

  /** Replies arrive after their read started, and a copy that lists a key somebody waits for came after they asked. */
  ghost predicate Timely(s: State) {
    && (forall i :: 0 <= i < |s.history| && s.history[i].done.Some? ==>
          s.history[i].started <= s.history[i].done.value.at <= s.clock)
    && (forall l :: l in s.waiting && s.held.Some? && s.waiting[l].kid in s.held.value ==>
          s.readAt.Some? && s.readAt.value >= s.waiting[l].asked)
  }

  lemma {:induction false} StepTimely(s: State, e: Event)
    requires Inv(s) && Timely(s) && Enabled(s, e)
    ensures Timely(Step(s, e))
  {
    match e {
      case ReplyArrives(i, r) => ReplyTimely(s, i, r);
      case _ =>
    }
  }

  lemma {:induction false} ReplyTimely(s: State, i: nat, r: Reply)
    requires Inv(s) && Timely(s) && Enabled(s, ReplyArrives(i, r))
    ensures Timely(OnReply(s, i, r))
  {
    forall l | l in s.waiting
      ensures s.waiting[l].asked <= s.clock
    {
      assert WaitIsRecent(s, s.waiting[l]);
    }
  }

  lemma {:induction false} RunsTimely(s: State, events: seq<Event>)
    requires Inv(s) && Timely(s) && Possible(s, events)
    ensures Timely(After(s, events))
    decreases |events|
  {
    if events != [] {
      StepKeeps(s, events[0]);
      StepTimely(s, events[0]);
      RunsTimely(Step(s, events[0]), events[1..]);
    }
  }

  /** Read `i` replied after `asked`, or ended later than the interval before it. */
  ghost predicate Fresh(s: State, i: nat, asked: real) {
    && i < |s.history| && s.history[i].done.Some?
    && (s.history[i].done.value.at >= asked || Recent(s, i, asked))
  }

  /** Read `i` is the latest that succeeded. */
  predicate LastGood(history: seq<Read>, i: nat) {
    && i < |history| && history[i].done.Some? && history[i].done.value.reply.Good?
    && forall j :: i < j < |history| ==> history[j].done.None? || history[j].done.value.reply.Bad?
  }

  /** Read `i` is the latest that completed. */
  predicate LastReply(history: seq<Read>, i: nat) {
    i < |history| && history[i].done.Some? && forall j :: i < j < |history| ==> history[j].done.None?
  }

  /** This is the answer for `kid` read off the reply of read `i`. */
  ghost predicate FromRead(s: State, i: nat, kid: Kid, answer: Answer)
    requires i < |s.history| && s.history[i].done.Some?
  {
    match s.history[i].done.value.reply
    case Good(keys) =>
      if kid in keys then answer == Listed(keys[kid]) && LastGood(s.history, i)
      else answer == Unlisted && LastReply(s.history, i)
    case Bad(why) =>
      answer == Unavailable(Some(why)) && LastReply(s.history, i)
  }

  lemma {:induction false} GoodIndex(history: seq<Read>) returns (i: nat)
    requires LatestGood(history).Some?
    ensures LastGood(history, i) && history[i].done == LatestGood(history)
  {
    var last := |history| - 1;
    if history[last].done.Some? && history[last].done.value.reply.Good? {
      i := last;
    } else {
      i := GoodIndex(history[..last]);
      assert forall j :: 0 <= j < last ==> history[..last][j] == history[j];
    }
  }

  lemma {:induction false} ReplyIndex(history: seq<Read>, r: nat) returns (i: nat)
    requires r < |history| && history[r].done.Some?
    ensures r <= i && LastReply(history, i) && LatestReply(history) == Some(history[i].done.value.reply)
    decreases |history|
  {
    var last := |history| - 1;
    if history[last].done.Some? {
      i := last;
    } else {
      i := ReplyIndex(history[..last], r);
      assert forall j :: 0 <= j < last ==> history[..last][j] == history[j];
    }
  }

  /** When the latest read that completed succeeded, it is the latest that succeeded. */
  lemma {:induction false} LatestsAgree(history: seq<Read>, i: nat)
    requires LastReply(history, i) && history[i].done.value.reply.Good?
    ensures LatestGood(history) == history[i].done
    decreases |history|
  {
    var last := |history| - 1;
    if i < last {
      assert history[last].done.None?;
      LatestsAgree(history[..last], i);
    }
  }

  /** The answer of a key the copy does not list comes from the latest reply, which is fresh. */
  lemma {:induction false} MissingIsFresh(s: State, kid: Kid, asked: real, r: nat) returns (i: nat)
    requires Inv(s) && Timely(s) && Recent(s, r, asked)
    requires !(s.held.Some? && kid in s.held.value)
    ensures Fresh(s, i, asked) && FromRead(s, i, kid, AnswerNow(s, kid))
  {
    assert s.history[r].done.Some?;
    i := ReplyIndex(s.history, r);
    if r < i { StartsAfter(s, r, i); }
    if s.history[i].done.value.reply.Good? { LatestsAgree(s.history, i); }
  }

  lemma {:induction false} ListedIsFresh(s: State, l: nat) returns (i: nat)
    requires ReadsOff(s) && Timely(s) && l in s.waiting && s.held.Some? && s.waiting[l].kid in s.held.value
    ensures Fresh(s, i, s.waiting[l].asked) && FromRead(s, i, s.waiting[l].kid, AnswerNow(s, s.waiting[l].kid))
  {
    i := GoodIndex(s.history);
  }

  /**
   What a lookup that waited is answered, and from which read: the latest that succeeded when it lists
   the key, else the latest that completed. That very read replied after the lookup asked, or ended
   later than the interval before.
   */
  lemma {:induction false} WaitedAnswers(timing: Timing, events: seq<Event>, s: State, l: nat) returns (i: nat)
    requires Reached(timing, events, s) && Enabled(s, Resume(l))
    ensures Fresh(s, i, s.waiting[l].asked)
    ensures FromRead(s, i, s.waiting[l].kid, AnswerNow(s, s.waiting[l].kid))
  {
    RunsKeep(Initial(timing), events);
    RunsTimely(Initial(timing), events);
    var w := s.waiting[l];
    assert WaitIsRecent(s, w);
    if s.held.Some? && w.kid in s.held.value {
      i := ListedIsFresh(s, l);
    } else {
      if w.on.Some? { assert Recent(s, w.on.value, w.asked); }
      var r: nat :| Recent(s, r, w.asked);
      i := MissingIsFresh(s, w.kid, w.asked, r);
    }
  }

  /** A listed key is answered at once; a copy past its age starts a read unless one is running or too recent. */
  lemma {:induction false} ListedAtOnce(timing: Timing, events: seq<Event>, s: State, kid: Kid)
    requires Reached(timing, events, s) && s.held.Some? && kid in s.held.value
    ensures LatestGood(s.history).Some?
    ensures var t := Step(s, Ask(kid));
            && s.asked in t.answers && t.answers[s.asked] == Listed(s.held.value[kid]) && t.waiting == s.waiting
            && var at := LatestGood(s.history).value.at;
               |t.history| == |s.history| + 1 <==>
                 && s.clock - at >= timing.maxAge
                 && (|s.history| > 0 ==> Ended(s, |s.history| - 1)
                                         && s.clock >= s.history[|s.history| - 1].ended.value + timing.interval)
  {
    RunsKeep(Initial(timing), events);
    if s.history != [] && Ended(s, |s.history| - 1) {
      assert LatestEnd(s.history) == s.history[|s.history| - 1].ended;
    }
  }

  // ---- the closure ----

  /** `keySet(label, url)`: the variables it closes over; `now` is `performance.now()`. */
  class PublishedKeySet {
    const timing: Timing
    var held: Option<map<Kid, Key>>
    var readAt: Option<real>
    var nextReadAt: Option<real>
    var lastFailure: Option<nat>
    var reading: Option<nat>
    var started: nat
    ghost var clock: real
    ghost var history: seq<Read>
    ghost var waiting: map<nat, Lookup>
    ghost var answers: map<nat, Answer>
    ghost var asked: nat
    ghost var events: seq<Event>  // everything that happened to this object

    ghost function View(): State
      reads this
    {
      State(timing, held, readAt, nextReadAt, lastFailure, reading, clock, history, waiting, answers, asked)
    }

    ghost predicate Valid()
      reads this
    {
      Reached(timing, events, View()) && started == |history|
    }

    constructor (timing: Timing := TEAMS)
      requires timing.interval > 0.0
      ensures Valid() && View() == Initial(timing)
    {
      this.timing := timing;
      held, readAt, nextReadAt, lastFailure, reading, started := None, None, None, None, None, 0;
      clock, history, waiting, answers, asked, events := 0.0, [], map[], map[], 0, [];
    }

    ghost method PassTime(ms: real)
      requires Valid() && ms >= 0.0
      modifies this
      ensures Valid() && View() == Step(old(View()), Tick(ms)) && events == old(events) + [Tick(ms)]
    {
      Extend(Initial(timing), events, View(), Tick(ms));
      events := events + [Tick(ms)];
      clock := clock + ms;
    }

    /** Lines 241-249. */
    method StartRead(now: real)
      requires now == clock && started == |history|
      modifies this`reading, this`started, this`history
      ensures View() == CurrentRead(old(View())) && started == |history|
    {
      if reading.None? && (nextReadAt.None? || now >= nextReadAt.value) {
        reading := Some(started);
        started := started + 1;
        history := history + [Read(now, None, None)];
      }
    }

    /** `lookup` up to its await: the listed key, or `None` when it has to wait (lines 251-261). */
    method LookUp(kid: Kid, now: real) returns (answer: Option<Key>)
      requires Valid() && now == clock
      modifies this
      ensures Valid() && View() == Step(old(View()), Ask(kid)) && events == old(events) + [Ask(kid)]
      ensures answer == if old(held).Some? && kid in old(held).value then Some(old(held).value[kid]) else None
    {
      Extend(Initial(timing), events, View(), Ask(kid));
      events := events + [Ask(kid)];
      if held.Some? && kid in held.value {
        answer := Some(held.value[kid]);
        AnswerListed(kid, now);
      } else {
        answer := None;
        WaitForRead(kid, now);
      }
    }

    method AnswerListed(kid: Kid, now: real)
      requires now == clock && started == |history| && held.Some? && kid in held.value
      modifies this`reading, this`started, this`history, this`answers, this`asked
      ensures View() == OnAsk(old(View()), kid) && started == |history|
    {
      ghost var n := asked;
      asked := asked + 1;
      if readAt.None? || now - readAt.value >= timing.maxAge { StartRead(now); }
      answers := answers[n := Listed(held.value[kid])];
    }

    method WaitForRead(kid: Kid, now: real)
      requires now == clock && started == |history| && !(held.Some? && kid in held.value)
      modifies this`reading, this`started, this`history, this`waiting, this`asked
      ensures View() == OnAsk(old(View()), kid) && started == |history|
    {
      ghost var n := asked;
      asked := asked + 1;
      StartRead(now);
      waiting := waiting[n := Lookup(kid, now, reading)];
    }

    /** The rest of `lookup` once its read is over (lines 262-264). */
    method FinishLookUp(ghost l: nat, kid: Kid) returns (answer: Answer)
      requires Valid() && Enabled(View(), Resume(l)) && waiting[l].kid == kid
      modifies this`waiting, this`answers, this`events
      ensures Valid() && View() == Step(old(View()), Resume(l)) && events == old(events) + [Resume(l)]
      ensures l in answers && answers[l] == answer
      ensures exists i :: Fresh(View(), i, old(waiting[l].asked)) && FromRead(View(), i, kid, answer)
    {
      ghost var i := WaitedAnswers(timing, events, View(), l);
      Extend(Initial(timing), events, View(), Resume(l));
      events := events + [Resume(l)];
      if held.Some? && kid in held.value {
        answer := Listed(held.value[kid]);
      } else {
        answer := if held.None? || lastFailure.Some? then Unavailable(lastFailure) else Unlisted;
      }
      assert answer == AnswerNow(View(), kid);
      waiting, answers := waiting - {l}, answers[l := answer];
      assert Fresh(View(), i, old(waiting[l].asked)) && FromRead(View(), i, kid, answer);
    }

    /** `read` once `readKeySet` settled (lines 225-236). */
    method OnReadReply(i: nat, reply: Reply, now: real)
      requires Valid() && Enabled(View(), ReplyArrives(i, reply)) && now == clock
      modifies this
      ensures Valid() && View() == Step(old(View()), ReplyArrives(i, reply))
      ensures events == old(events) + [ReplyArrives(i, reply)]
    {
      Extend(Initial(timing), events, View(), ReplyArrives(i, reply));
      events := events + [ReplyArrives(i, reply)];
      history := history[i := history[i].(done := Some(Done(now, reply)))];
      match reply {
        case Good(keys) => lastFailure, held, readAt := None, Some(keys), Some(now);
        case Bad(why) => lastFailure := Some(why);
      }
    }

    /** The `finally` of line 243. */
    method OnReadEnd(i: nat, now: real)
      requires Valid() && Enabled(View(), ReadEnds(i)) && now == clock
      modifies this
      ensures Valid() && View() == Step(old(View()), ReadEnds(i)) && events == old(events) + [ReadEnds(i)]
    {
      Extend(Initial(timing), events, View(), ReadEnds(i));
      events := events + [ReadEnds(i)];
      history := history[i := history[i].(ended := Some(now))];
      nextReadAt, reading := Some(now + timing.interval), None;
    }
  }
}
