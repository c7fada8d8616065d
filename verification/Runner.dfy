/**
 `GatewayRunner`: overlapping starts, rollback, a `stop()` that overtakes a pending connect, and the
 drain before the disconnects (packages/gateway/src/runner/gateway-runner.ts).

 The code between two awaits is one step; adapters, handlers and timers settle in any order. An
 adapter is its index in `opts.adapters`.
 */
module Runner {
  import opened Options

  datatype Mode = Rollback | Isolate
  datatype Settling = Pending | Connected | Refused | Threw

  datatype StartResult = StartResult(connected: set<nat>, failed: set<nat>)

  /** Where the suspended `runStart` is; `Idle` when there is none. */
  datatype RunPhase =
    | Idle
    | Connecting(results: seq<Settling>, failures: seq<nat>)
    | Judged(connected: set<nat>, failed: set<nat>)
    | RollingBack(waiting: set<nat>, failure: nat)
    | Rejected(failure: nat)
    | Overtaken(waiting: set<nat>, failed: set<nat>)

  /** A promise in the drain set: the whole dispatch of an event, or the handler's work inside it. */
  datatype Task = Dispatch(id: nat) | Work(id: nat)

  /** What goes wrong in a handler, in the hooks around it or before it. */
  datatype Fault =
    | Reportable    // it threw a value whose `.message` can be read and printed
    | Nullish       // it threw `null` or `undefined`, of which `.message` cannot be read
    | Unprintable   // it threw a value whose `.message` throws when read, or has no string form
    | NullDecision  // a `pre_inbound` hook answered `null`
    | NullMessage   // a `pre_inbound` hook blocked with the message `null`
    | NotText       // the text of the event is not a string

  datatype Ending = Finished | Failed(fault: Fault)

  /**
   The code around it survives: every `catch` on the way prints the `.message` of what was thrown (line
   401, and lines 107 and 143 of packages/gateway/src/hooks/executor.ts), and what is read outside any
   `catch` is as its type says (lines 381 and 420, and line 114 of that file).
   */
  predicate Contained(ending: Ending) {
    ending.Finished? || ending.fault.Reportable?
  }

  /** What a handler can do; the other faults come before any handler runs. */
  predicate ByHandler(ending: Ending) {
    ending.Finished? || ending.fault.Reportable? || ending.fault.Nullish? || ending.fault.Unprintable?
  }

  datatype Race = Open | AllSettled | TimedOut | OneRejected

  /** Where `stop()` is; `before` counts the dispatches accepted when it was called. */
  datatype StopPhase =
    | Running
    | Draining(snapshot: set<Task>, race: Race, before: nat)
    | Releasing(waiting: set<nat>, timedOut: bool, before: nat)
    | Stopped(timedOut: bool, before: nat)
    | Aborted

  datatype State = State(
    platforms: seq<nat>,
    mode: Mode,
    // fields of the runner
    stopped: bool,
    startResult: Option<StartResult>,
    startInFlight: bool,
    inflight: set<Task>,
    wired: set<nat>,
    // its suspended calls
    run: RunPhase,
    stop: StopPhase,
    // the world: adapters that may hold a session, those the runner owes a disconnect, those whose
    // connect succeeded under a disconnect already called, those whose disconnect failed
    live: set<nat>,
    held: set<nat>,
    stale: set<nat>,
    undisconnected: set<nat>,
    everWired: set<nat>,
    accepted: nat,
    fulfilled: set<Task>,
    rejected: set<Task>
  )

  datatype Event =
    | CallStart
    | ConnectSettles(adapter: nat, result: Settling)
    | ConnectsJudged
    | RunResumes
    | ReleaseSettles(adapter: nat, ok: bool)
    | ReleaseDone
    | StartCleared
    | CallStop
    | DrainTimer
    | StopResumes
    | StopReleaseSettles(adapter: nat, ok: bool)
    | StopDone
    | Inbound(adapter: nat)
    | WorkBegins(id: nat)
    | WorkEnds(id: nat, ending: Ending)
    | DispatchBlocked(id: nat, ending: Ending)
    | DispatchEnds(id: nat)
    | TaskForgotten(task: Task)

  function Initial(platforms: seq<nat>, mode: Mode): State {
    State(platforms, mode, false, None, false, {}, {}, Idle, Running, {}, {}, {}, {}, {}, 0, {}, {})
  }

  function All(s: State): set<nat> {
    set i: nat {:trigger s.platforms[i]} | i < |s.platforms|
  }

  function ConnectedOf(results: seq<Settling>): set<nat> {
    set i: nat | i < |results| && results[i] == Connected
  }

  function FailedOf(results: seq<Settling>): set<nat> {
    set i: nat | i < |results| && results[i] != Connected
  }

  function PendingConnects(s: State): set<nat> {
    if s.run.Connecting? then set i: nat | i < |s.run.results| && s.run.results[i] == Pending else {}
  }

  /** The values of the platform map: for a platform given twice, the adapter given last. */
  function MapValues(platforms: seq<nat>): set<nat> {
    set i: nat | i < |platforms| && forall j :: i < j < |platforms| ==> platforms[j] != platforms[i]
  }

  predicate Distinct(platforms: seq<nat>) {
    forall i, j :: 0 <= i < j < |platforms| ==> platforms[i] != platforms[j]
  }

  function StartWaiting(s: State): set<nat> {
    if s.run.RollingBack? || s.run.Overtaken? then s.run.waiting else {}
  }

  function StopWaiting(s: State): set<nat> {
    if s.stop.Releasing? then s.stop.waiting else {}
  }

  predicate TaskKnown(s: State, t: Task) {
    t.id < s.accepted
  }

  predicate TaskOpen(s: State, t: Task) {
    TaskKnown(s, t) && t !in s.fulfilled && t !in s.rejected
  }

  predicate WorkBegan(s: State, id: nat) {
    Work(id) in s.inflight + s.fulfilled + s.rejected
  }

  predicate WorkOver(s: State, id: nat) {
    Work(id) in s.fulfilled + s.rejected
  }

  /** What the world and the suspended calls may do next. */
  predicate Enabled(s: State, e: Event) {
    match e
    case CallStart => true
    case ConnectSettles(a, r) => a in PendingConnects(s) && r != Pending
    case ConnectsJudged => s.run.Connecting? && PendingConnects(s) == {}
    case RunResumes => s.run.Judged?
    case ReleaseSettles(a, _) => a in StartWaiting(s)
    case ReleaseDone => (s.run.RollingBack? || s.run.Overtaken?) && s.run.waiting == {}
    case StartCleared => s.run.Rejected?
    case CallStop => true
    case DrainTimer => s.stop.Draining?
    case StopResumes => s.stop.Draining? && s.stop.race != Open
    case StopReleaseSettles(a, _) => a in StopWaiting(s)
    case StopDone => s.stop.Releasing? && s.stop.waiting == {}
    case Inbound(a) => a in s.everWired
    case WorkBegins(id) => TaskOpen(s, Dispatch(id)) && !WorkBegan(s, id)
    case WorkEnds(id, ending) => TaskOpen(s, Work(id)) && Work(id) in s.inflight && ByHandler(ending)
    case DispatchBlocked(id, _) => TaskOpen(s, Dispatch(id)) && Dispatch(id) in s.inflight && !WorkBegan(s, id)
    case DispatchEnds(id) => TaskOpen(s, Dispatch(id)) && Dispatch(id) in s.inflight && WorkOver(s, id)
    case TaskForgotten(t) => t in s.inflight && (t in s.fulfilled || t in s.rejected)
  }

  // ---- specification of the steps ----

  predicate StartsConnecting(s: State) {
    !s.stopped && s.startResult.None? && !s.startInFlight
  }

  function OnCallStart(s: State): State {
    if StartsConnecting(s) then
      s.(startInFlight := true, run := Connecting(seq(|s.platforms|, _ => Pending), []))
    else s
  }

  function OnConnectSettles(s: State, a: nat, r: Settling): State
    requires s.run.Connecting? && a < |s.run.results|
  {
    var run := s.run.(results := s.run.results[a := r],
                      failures := if r == Connected then s.run.failures else s.run.failures + [a]);
    if r != Connected then s.(run := run)
    else s.(run := run, live := s.live + {a}, held := s.held + {a},
            stale := if a in StopWaiting(s) then s.stale + {a} else s.stale)
  }

  /** Call `disconnect` on each; the runner no longer owes it. */
  function Release(s: State, adapters: set<nat>): State {
    s.(held := s.held - adapters)
  }

  function OnConnectsJudged(s: State): State
    requires s.run.Connecting?
  {
    var connected := ConnectedOf(s.run.results);
    if s.mode == Rollback && s.run.failures != [] then
      Release(s, connected).(run := RollingBack(connected, s.run.failures[0]))
    else s.(run := Judged(connected, FailedOf(s.run.results)))
  }

  function OnRunResumes(s: State): State
    requires s.run.Judged?
  {
    if s.stopped then Release(s, s.run.connected).(run := Overtaken(s.run.connected, s.run.failed))
    else s.(wired := s.wired + s.run.connected, everWired := s.everWired + s.run.connected,
            startResult := Some(StartResult(s.run.connected, s.run.failed)), run := Idle)
  }

  function OnReleaseSettles(s: State, a: nat, ok: bool): State
    requires s.run.RollingBack? || s.run.Overtaken?
  {
    s.(run := s.run.(waiting := s.run.waiting - {a}),
       live := if ok then s.live - {a} else s.live,
       undisconnected := if ok then s.undisconnected else s.undisconnected + {a})
  }

  function OnReleaseDone(s: State): State
    requires s.run.RollingBack? || s.run.Overtaken?
  {
    if s.run.RollingBack? then s.(run := Rejected(s.run.failure))
    else s.(startResult := Some(StartResult({}, s.run.failed)), run := Idle)
  }

  function OnCallStop(s: State): State {
    if s.stopped then s
    else
      var s' := s.(stopped := true, wired := {});
      if s.inflight == {} then StopReleases(s', false, s.accepted)
      else s'.(stop := Draining(s.inflight, RaceOf(s, s.inflight, Open), s.accepted))
  }

  /** How the race between the drain set and the timer stands. */
  function RaceOf(s: State, snapshot: set<Task>, race: Race): Race {
    if race != Open then race
    else if snapshot * s.rejected != {} then OneRejected
    else if snapshot <= s.fulfilled then AllSettled
    else Open
  }

  function StopReleases(s: State, timedOut: bool, before: nat): State {
    var targets := MapValues(s.platforms);
    Release(s, targets).(stop := Releasing(targets, timedOut, before))
  }

  function OnStopResumes(s: State): State
    requires s.stop.Draining?
  {
    if s.stop.race == OneRejected then s.(stop := Aborted)
    else StopReleases(s, s.stop.race == TimedOut, s.stop.before)
  }

  function OnStopReleaseSettles(s: State, a: nat, ok: bool): State
    requires s.stop.Releasing?
  {
    s.(stop := s.stop.(waiting := s.stop.waiting - {a}),
       live := if ok && a !in s.stale then s.live - {a} else s.live,
       undisconnected := if ok then s.undisconnected else s.undisconnected + {a},
       stale := s.stale - {a})
  }

  function OnTaskSettles(s: State, t: Task, ok: bool): State {
    var s' := if ok then s.(fulfilled := s.fulfilled + {t}) else s.(rejected := s.rejected + {t});
    if s.stop.Draining? then s'.(stop := s.stop.(race := RaceOf(s', s.stop.snapshot, s.stop.race))) else s'
  }

  /**
   The promise an event settles, and whether it fulfils: a handler's work rejects with what nothing
   contained, and a dispatch with its work or with what ended it before.
   */
  function TaskSettled(s: State, e: Event): Option<(Task, bool)> {
    match e
    case WorkEnds(id, ending) => Some((Work(id), Contained(ending)))
    case DispatchBlocked(id, ending) => Some((Dispatch(id), Contained(ending)))
    case DispatchEnds(id) => Some((Dispatch(id), Work(id) in s.fulfilled))
    case _ => None
  }

  function Step(s: State, e: Event): State
    requires Enabled(s, e)
  {
    match e
    case CallStart => OnCallStart(s)
    case ConnectSettles(a, r) => OnConnectSettles(s, a, r)
    case ConnectsJudged => OnConnectsJudged(s)
    case RunResumes => OnRunResumes(s)
    case ReleaseSettles(a, ok) => OnReleaseSettles(s, a, ok)
    case ReleaseDone => OnReleaseDone(s)
    case StartCleared => s.(run := Idle, startInFlight := false)
    case CallStop => OnCallStop(s)
    case DrainTimer => s.(stop := s.stop.(race := if s.stop.race == Open then TimedOut else s.stop.race))
    case StopResumes => OnStopResumes(s)
    case StopReleaseSettles(a, ok) => OnStopReleaseSettles(s, a, ok)
    case StopDone => s.(stop := Stopped(s.stop.timedOut, s.stop.before))
    case Inbound(_) => s.(accepted := s.accepted + 1, inflight := s.inflight + {Dispatch(s.accepted)})
    case WorkBegins(id) => s.(inflight := s.inflight + {Work(id)})
    case TaskForgotten(t) => s.(inflight := s.inflight - {t})
    case _ =>
      var (task, ok) := TaskSettled(s, e).value;
      OnTaskSettles(s, task, ok)
  }

  /** Every interleaving: the events in order, each possible when it happens. */
  ghost predicate Possible(s: State, events: seq<Event>)
    decreases |events|
  {
    events == [] || (Enabled(s, events[0]) && Possible(Step(s, events[0]), events[1..]))
  }

  ghost function After(s: State, events: seq<Event>): State
    requires Possible(s, events)
    decreases |events|
  {
    if events == [] then s else After(Step(s, events[0]), events[1..])
  }

  lemma {:induction false} Extend(s0: State, es: seq<Event>, s: State, e: Event)
    requires Possible(s0, es) && After(s0, es) == s && Enabled(s, e)
    ensures Possible(s0, es + [e]) && After(s0, es + [e]) == Step(s, e)
    decreases |es|
  {
    if es == [] {
      assert (es + [e])[1..] == [] && (es + [e])[0] == e;
    } else {
      Extend(Step(s0, es[0]), es[1..], s, e);
      assert (es + [e])[0] == es[0] && (es + [e])[1..] == es[1..] + [e];
    }
  }

  // ---- what every step keeps ----

  /** The fields and the suspended start agree. */
  ghost predicate StartAgrees(s: State) {
    && (s.startResult.Some? ==> s.run.Idle? && s.startInFlight)
    && (!s.startInFlight ==> s.run.Idle?)
    && (s.startInFlight && s.startResult.None? ==> !s.run.Idle?)
    && (s.run.Connecting? ==> |s.run.results| == |s.platforms|)
    && (s.run.Connecting? ==> (s.run.failures == [] <==> FailedOf(s.run.results) <= PendingConnects(s)))
  }

  ghost predicate InRange(s: State) {
    && s.held <= All(s)
    && (s.run.Judged? ==> s.run.connected <= All(s))
  }

  /** A disconnect is owed only for an adapter the current start connected. */
  ghost predicate HeldBounded(s: State) {
    s.held <= match s.run
              case Connecting(results, _) => ConnectedOf(results)
              case Judged(connected, _) => connected
              case Idle => if s.startResult.Some? then s.startResult.value.connected else {}
              case _ => {}
  }

  /** Whatever may hold a session is owed a disconnect, being disconnected, or failed to be. */
  ghost predicate LiveAccounted(s: State) {
    && (forall a :: a in s.live ==>
          a in s.held || a in StartWaiting(s) || a in s.undisconnected || (a in StopWaiting(s) && a !in s.stale))
    && s.stale <= StopWaiting(s)
  }

  ghost predicate StopAgrees(s: State) {
    && (s.stopped <==> !s.stop.Running?)
    && (s.stopped ==> s.wired == {})
    && ((s.stop.Releasing? || s.stop.Stopped?) && s.run.Idle? && Distinct(s.platforms) ==> s.held == {})
  }

  ghost predicate Inv(s: State) {
    StartAgrees(s) && InRange(s) && HeldBounded(s) && LiveAccounted(s) && StopAgrees(s)
  }

  lemma {:induction false} DistinctMapValues(s: State)
    requires Distinct(s.platforms)
    ensures MapValues(s.platforms) == All(s)
  {
  }

  lemma {:induction false} ConnectSettlesKeeps(s: State, a: nat, r: Settling)
    requires Inv(s) && Enabled(s, ConnectSettles(a, r))
    ensures Inv(OnConnectSettles(s, a, r))
  {
    var t := OnConnectSettles(s, a, r);
    var old', new' := s.run.results, t.run.results;
    assert forall i: nat :: i < |old'| && i != a ==> new'[i] == old'[i];
    assert ConnectedOf(new') == ConnectedOf(old') + (if r == Connected then {a} else {});
    if r != Connected {
      assert a in FailedOf(new') && a !in PendingConnects(t);
    } else if s.run.failures == [] {
      assert forall i: nat :: i in FailedOf(new') ==> i in FailedOf(old') && i in PendingConnects(s);
      assert FailedOf(new') <= PendingConnects(t);
    } else {
      var i :| i in FailedOf(old') && i !in PendingConnects(s);
      assert i in FailedOf(new') && i !in PendingConnects(t);
    }
  }

  lemma {:induction false} CallStartKeeps(s: State)
    requires Inv(s)
    ensures Inv(OnCallStart(s))
  {
  }

  lemma {:induction false} StopStepsKeep(s: State, e: Event)
    requires Inv(s) && Enabled(s, e) && (e.CallStop? || e.StopResumes?)
    ensures Inv(Step(s, e))
  {
  }

  lemma {:induction false} RunStepsKeep(s: State, e: Event)
    requires Inv(s) && Enabled(s, e)
    requires e.ConnectsJudged? || e.RunResumes? || e.ReleaseSettles? || e.ReleaseDone? || e.StartCleared?
    ensures Inv(Step(s, e))
  {
  }

  lemma {:induction false} ReleasesKeep(s: State, e: Event)
    requires Inv(s) && Enabled(s, e) && (e.DrainTimer? || e.StopReleaseSettles? || e.StopDone?)
    ensures Inv(Step(s, e))
  {
  }

  lemma {:induction false} SettlingKeeps(s: State, t: Task, ok: bool)
    requires Inv(s)
    ensures Inv(OnTaskSettles(s, t, ok))
  {
  }

  lemma {:induction false} InflightKeeps(s: State, e: Event)
    requires Inv(s) && Enabled(s, e) && (e.Inbound? || e.WorkBegins? || e.TaskForgotten?)
    ensures Inv(Step(s, e))
  {
  }

  lemma {:induction false} StepKeeps(s: State, e: Event)
    requires Inv(s) && Enabled(s, e)
    ensures Inv(Step(s, e)) && Step(s, e).platforms == s.platforms
  {
    if e.CallStart? {
      CallStartKeeps(s);
    } else if e.ConnectSettles? {
      ConnectSettlesKeeps(s, e.adapter, e.result);
    } else if e.CallStop? || e.StopResumes? {
      StopStepsKeep(s, e);
    } else if e.ConnectsJudged? || e.RunResumes? || e.ReleaseSettles? || e.ReleaseDone? || e.StartCleared? {
      RunStepsKeep(s, e);
    } else if e.DrainTimer? || e.StopReleaseSettles? || e.StopDone? {
      ReleasesKeep(s, e);
    } else if e.Inbound? || e.WorkBegins? || e.TaskForgotten? {
      InflightKeeps(s, e);
    } else {
      var (task, ok) := TaskSettled(s, e).value;
      SettlingKeeps(s, task, ok);
    }
  }

  lemma {:induction false} RunsKeep(s: State, events: seq<Event>)
    requires Inv(s) && Possible(s, events)
    ensures Inv(After(s, events)) && After(s, events).platforms == s.platforms
    decreases |events|
  {
    if events != [] {
      StepKeeps(s, events[0]);
      RunsKeep(Step(s, events[0]), events[1..]);
    }
  }
}
