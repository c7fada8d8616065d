/** What holds on every run of the runner (packages/gateway/src/runner/gateway-runner.ts). */
module RunnerTheorems {
  import opened Options
  import opened Runner
  import Channels

  ghost predicate Reached(platforms: seq<nat>, mode: Mode, events: seq<Event>, s: State) {
    Possible(Initial(platforms, mode), events) && s == After(Initial(platforms, mode), events)
  }

  /** Nothing of a `start()` or of `stop()` is still pending. */
  predicate AtRest(s: State) {
    s.run.Idle? && s.stop.Stopped?
  }

  /** Every adapter that may still hold a session is one whose `disconnect` failed. */
  predicate NoneLeftLive(s: State) {
    s.live <= s.undisconnected
  }

  lemma {:induction false} ReachedKeeps(platforms: seq<nat>, mode: Mode, events: seq<Event>, s: State)
    requires Reached(platforms, mode, events, s)
    ensures Inv(s) && s.platforms == platforms
  {
    RunsKeep(Initial(platforms, mode), events);
  }

  /** A stopped runner at rest leaves no adapter live, whatever overlapped. */
  lemma {:induction false} StoppedLeavesNoneLive(platforms: seq<nat>, mode: Mode, events: seq<Event>, s: State)
    requires Reached(platforms, mode, events, s) && AtRest(s) && Distinct(platforms)
    ensures NoneLeftLive(s)
  {
    ReachedKeeps(platforms, mode, events, s);
  }

  /** The same for the adapters `createChannels` builds, whatever its entries. */
  lemma {:induction false} ChannelsLeaveNoneLive(
      entries: seq<Channels.Entry>, adapters: seq<nat>, rejected: seq<Channels.Rejection>, mode: Mode,
      events: seq<Event>, s: State)
    requires Channels.Sorted(entries, |entries|, adapters, rejected)
    requires Reached(Channels.PlatformsOf(entries, adapters), mode, events, s) && AtRest(s)
    ensures NoneLeftLive(s)
  {
    Channels.FirstClaimsDistinct(entries, adapters, rejected);
    StoppedLeavesNoneLive(Channels.PlatformsOf(entries, adapters), mode, events, s);
  }

  // ---- a repeated platform always loses an adapter ----

  lemma {:induction false} Chain(s: State, es: seq<Event>, fs: seq<Event>)
    requires Possible(s, es) && Possible(After(s, es), fs)
    ensures Possible(s, es + fs) && After(s, es + fs) == After(After(s, es), fs)
    decreases |es|
  {
    if es == [] {
      assert es + fs == fs;
    } else {
      Chain(Step(s, es[0]), es[1..], fs);
      assert (es + fs)[0] == es[0] && (es + fs)[1..] == es[1..] + fs;
    }
  }

  lemma {:induction false} One(s: State, e: Event)
    requires Enabled(s, e)
    ensures Possible(s, [e]) && After(s, [e]) == Step(s, e)
  {
  }

  function Firsts(platforms: seq<nat>, n: nat): set<nat>
    requires n <= |platforms|
  {
    set i: nat {:trigger platforms[i]} | i < n
  }

  /** Connecting, with the first `k` of the adapters connected and the others pending. */
  function Halfway(platforms: seq<nat>, mode: Mode, k: nat): State
    requires k <= |platforms|
  {
    Initial(platforms, mode).(
      startInFlight := true,
      run := Connecting(seq(|platforms|, i => if i < k then Connected else Pending), []),
      live := Firsts(platforms, k), held := Firsts(platforms, k))
  }

  lemma {:induction false} ConnectOnwards(platforms: seq<nat>, mode: Mode, k: nat) returns (events: seq<Event>)
    requires k <= |platforms|
    ensures Possible(Halfway(platforms, mode, k), events)
    ensures After(Halfway(platforms, mode, k), events) == Halfway(platforms, mode, |platforms|)
    decreases |platforms| - k
  {
    if k == |platforms| {
      events := [];
    } else {
      var s, e := Halfway(platforms, mode, k), ConnectSettles(k, Connected);
      var rest := ConnectOnwards(platforms, mode, k + 1);
      assert k in PendingConnects(s);
      assert Step(s, e).run.results == Halfway(platforms, mode, k + 1).run.results;
      assert Firsts(platforms, k) + {k} == Firsts(platforms, k + 1);
      assert Step(s, e) == Halfway(platforms, mode, k + 1);
      One(s, e);
      Chain(s, [e], rest);
      events := [e] + rest;
    }
  }

  lemma {:induction false} ReleaseOnwards(s: State) returns (events: seq<Event>)
    requires s.stop.Releasing? && s.stale == {}
    ensures Possible(s, events)
    ensures After(s, events) == s.(stop := s.stop.(waiting := {}), live := s.live - s.stop.waiting)
    decreases |StopWaiting(s)|
  {
    if s.stop.waiting == {} {
      events := [];
      assert s.live - {} == s.live;
    } else {
      var a :| a in s.stop.waiting;
      var e := StopReleaseSettles(a, true);
      assert s.stale - {a} == {};
      var rest := ReleaseOnwards(Step(s, e));
      One(s, e);
      Chain(s, [e], rest);
      assert s.live - {a} - (s.stop.waiting - {a}) == s.live - s.stop.waiting;
      events := [e] + rest;
    }
  }

  /** The runner once a start connected every adapter and wired them all. */
  function Serving(platforms: seq<nat>, mode: Mode): State {
    var all := Firsts(platforms, |platforms|);
    Initial(platforms, mode).(
      startInFlight := true, startResult := Some(StartResult(all, {})),
      live := all, held := all, wired := all, everWired := all)
  }

  lemma {:induction false} JudgedAndWired(platforms: seq<nat>, mode: Mode)
    ensures var s := Halfway(platforms, mode, |platforms|);
            && Enabled(s, ConnectsJudged) && Enabled(Step(s, ConnectsJudged), RunResumes)
            && Step(Step(s, ConnectsJudged), RunResumes) == Serving(platforms, mode)
  {
    var s := Halfway(platforms, mode, |platforms|);
    assert PendingConnects(s) == {} && FailedOf(s.run.results) == {};
    assert ConnectedOf(s.run.results) == Firsts(platforms, |platforms|);
    var j := Step(s, ConnectsJudged);
    assert j == s.(run := Judged(Firsts(platforms, |platforms|), {}));
  }

  lemma {:induction false} ServingIsReached(platforms: seq<nat>, mode: Mode) returns (events: seq<Event>)
    ensures Reached(platforms, mode, events, Serving(platforms, mode))
  {
    var s0, s1 := Initial(platforms, mode), Halfway(platforms, mode, 0);
    assert Step(s0, CallStart).run.results == s1.run.results;
    assert Firsts(platforms, 0) == {};
    One(s0, CallStart);
    var connects := ConnectOnwards(platforms, mode, 0);
    Chain(s0, [CallStart], connects);
    JudgedAndWired(platforms, mode);
    var s2 := Halfway(platforms, mode, |platforms|);
    var es := [CallStart] + connects;
    Extend(s0, es, s2, ConnectsJudged);
    Extend(s0, es + [ConnectsJudged], Step(s2, ConnectsJudged), RunResumes);
    events := es + [ConnectsJudged] + [RunResumes];
  }

  /** All connect; then `stop()` with nothing in flight, and every disconnect it calls succeeds. */
  lemma {:induction false} QuietRun(platforms: seq<nat>, mode: Mode) returns (events: seq<Event>, s: State)
    ensures Reached(platforms, mode, events, s) && AtRest(s)
    ensures s.live == Firsts(platforms, |platforms|) - MapValues(platforms) && s.undisconnected == {}
  {
    var s0, s1 := Initial(platforms, mode), Serving(platforms, mode);
    var es := ServingIsReached(platforms, mode);
    Extend(s0, es, s1, CallStop);
    var s2 := Step(s1, CallStop);
    var releases := ReleaseOnwards(s2);
    Chain(s0, es + [CallStop], releases);
    var s3 := After(s2, releases);
    Extend(s0, es + [CallStop] + releases, s3, StopDone);
    events := es + [CallStop] + releases + [StopDone];
    s := Step(s3, StopDone);
  }

  /** The exact condition: no run leaves an adapter live if and only if no platform is repeated. */
  lemma {:induction false} NoneLiveExactlyWhenDistinct(platforms: seq<nat>, mode: Mode)
    ensures Distinct(platforms) <==>
            forall events, s :: Reached(platforms, mode, events, s) && AtRest(s) ==> NoneLeftLive(s)
  {
    if Distinct(platforms) {
      forall events, s | Reached(platforms, mode, events, s) && AtRest(s)
        ensures NoneLeftLive(s)
      {
        StoppedLeavesNoneLive(platforms, mode, events, s);
      }
    } else {
      var events, s := QuietRun(platforms, mode);
      var i, j :| 0 <= i < j < |platforms| && platforms[i] == platforms[j];
      assert i in Firsts(platforms, |platforms|) && i !in MapValues(platforms);
      assert i in s.live && !NoneLeftLive(s);
    }
  }

  // ---- when adapters are connected and wired ----

  /** A step calls `connect` only as the first `start()` since the last settled one, before `stop()`. */
  lemma {:induction false} ConnectsAreFresh(platforms: seq<nat>, mode: Mode, events: seq<Event>, s: State, e: Event)
    requires Reached(platforms, mode, events, s) && Enabled(s, e)
    requires !(PendingConnects(Step(s, e)) <= PendingConnects(s))
    ensures e.CallStart? && !s.stopped
    ensures PendingConnects(s) == {} && s.held == {}
    ensures PendingConnects(Step(s, e)) == All(s)
  {
    ReachedKeeps(platforms, mode, events, s);
    OnlyStartsConnect(s, e);
    var results := Step(s, e).run.results;
    assert forall i: nat :: i < |results| ==> results[i] == Pending;
  }

  lemma {:induction false} OnlyStartsConnect(s: State, e: Event)
    requires Inv(s) && Enabled(s, e)
    ensures PendingConnects(Step(s, e)) <= PendingConnects(s) || (e.CallStart? && StartsConnecting(s))
  {
  }

  /** Inbound handlers are registered only before `stop()`, for adapters that connected, once each start. */
  lemma {:induction false} WiredBeforeStop(platforms: seq<nat>, mode: Mode, events: seq<Event>, s: State, e: Event)
    requires Reached(platforms, mode, events, s) && Enabled(s, e)
    ensures !(Step(s, e).everWired <= s.everWired) ==> e.RunResumes? && !s.stopped
    ensures s.stopped ==> Step(s, e).wired == {} && Step(s, e).stopped
  {
    ReachedKeeps(platforms, mode, events, s);
    StepKeeps(s, e);
  }

  // ---- how a start settles ----

  /** A start's result, and who is wired under it. */
  ghost predicate ResultAccounts(s: State) {
    && (s.run.Connecting? ==> |s.run.results| == |s.platforms|)
    && (s.run.Connecting? ==> (s.run.failures == [] <==> FailedOf(s.run.results) <= PendingConnects(s)))
    && (s.run.Judged? ==> s.run.connected == All(s) - s.run.failed && s.run.failed <= All(s))
    && (s.mode == Rollback && (s.run.Judged? || s.run.Overtaken?) ==> s.run.failed == {})
    && (s.run.Overtaken? ==> s.stopped)
    && (s.startResult.Some? ==> var r := s.startResult.value;
                                && (r.connected == All(s) - r.failed || (s.stopped && r.connected == {}))
                                && (s.mode == Rollback ==> r.failed == {})
                                && (!s.stopped ==> s.wired == r.connected))
    && (s.startResult.None? ==> s.wired == {})
    && s.everWired == (if s.startResult.Some? then s.startResult.value.connected else {})
    && (s.stopped <==> !s.stop.Running?)
  }

  lemma {:induction false} JudgedAccounts(s: State)
    requires ResultAccounts(s) && Enabled(s, ConnectsJudged)
    ensures ResultAccounts(Step(s, ConnectsJudged))
  {
  }

  lemma {:induction false} ResultsAccount(s: State, events: seq<Event>)
    requires Inv(s) && ResultAccounts(s) && Possible(s, events)
    ensures ResultAccounts(After(s, events))
    decreases |events|
  {
    if events != [] {
      var e := events[0];
      StepKeeps(s, e);
      if e.ConnectsJudged? { JudgedAccounts(s); }
      assert ResultAccounts(Step(s, e));
      ResultsAccount(Step(s, e), events[1..]);
    }
  }

  /**
   Under `"rollback"` a start that resolves connected every adapter, or none when `stop()` overtook
   it; under `"isolate"` every adapter is connected or named as failed. The adapters it reports are
   exactly those ever wired, and they are wired until `stop()`.
   */
  lemma {:induction false} StartIsAllOrNothing(platforms: seq<nat>, mode: Mode, events: seq<Event>, s: State)
    requires Reached(platforms, mode, events, s) && s.startResult.Some?
    ensures var r := s.startResult.value;
            && (r.connected == All(s) - r.failed || (s.stopped && r.connected == {}))
            && (mode == Rollback ==> r.failed == {})
            && (!s.stopped ==> s.wired == r.connected)
            && s.everWired == r.connected
  {
    ModeStays(Initial(platforms, mode), events);
    ResultsAccount(Initial(platforms, mode), events);
  }

  lemma {:induction false} ModeStays(s: State, events: seq<Event>)
    requires Possible(s, events)
    ensures After(s, events).mode == s.mode
    decreases |events|
  {
    if events != [] {
      ModeStays(Step(s, events[0]), events[1..]);
    }
  }

  // ---- what is live while the runner runs ----

  /** The adapters the runner keeps connected: none once a start rolled back. */
  function Kept(s: State): set<nat> {
    match s.run
    case Connecting(results, _) => ConnectedOf(results)
    case Judged(connected, _) => connected
    case Idle => if s.startResult.Some? then s.startResult.value.connected else {}
    case _ => {}
  }

  ghost predicate KeptAreLive(s: State) {
    s.stop.Running? ==> s.held == Kept(s) && s.held <= s.live
  }

  lemma {:induction false} StepKeepsLive(s: State, e: Event)
    requires Inv(s) && KeptAreLive(s) && Enabled(s, e)
    ensures KeptAreLive(Step(s, e))
  {
  }

  lemma {:induction false} RunsKeepLive(s: State, events: seq<Event>)
    requires Inv(s) && KeptAreLive(s) && Possible(s, events)
    ensures KeptAreLive(After(s, events))
    decreases |events|
  {
    if events != [] {
      StepKeeps(s, events[0]);
      StepKeepsLive(s, events[0]);
      RunsKeepLive(Step(s, events[0]), events[1..]);
    }
  }

  /**
   Until `stop()`, whenever no start is pending: the adapters a resolved start reported are live, and
   no other is, save one whose disconnect failed; so a start that rejected left none.
   */
  lemma {:induction false} LiveWhileRunning(platforms: seq<nat>, mode: Mode, events: seq<Event>, s: State)
    requires Reached(platforms, mode, events, s) && s.run.Idle? && s.stop.Running?
    ensures var connected := if s.startResult.Some? then s.startResult.value.connected else {};
            connected <= s.live <= connected + s.undisconnected
  {
    ReachedKeeps(platforms, mode, events, s);
    RunsKeepLive(Initial(platforms, mode), events);
  }

  // ---- the drain ----

  predicate Settled(s: State, t: Task) {
    t in s.fulfilled || t in s.rejected
  }

  /** What `stop()` waits for, and what it knows once it stopped waiting. */
  ghost predicate Drains(s: State) {
    && (forall d: nat :: d < s.accepted ==> Dispatch(d) in s.inflight || Settled(s, Dispatch(d)))
    && match s.stop
       case Running => true
       case Draining(snapshot, race, before) =>
         && before <= s.accepted
         && (forall d: nat :: d < before ==> Dispatch(d) in snapshot || Settled(s, Dispatch(d)))
         && (race == AllSettled ==> snapshot <= s.fulfilled)
         && (race == OneRejected ==> s.rejected != {})
         && (race == Open ==> snapshot * s.rejected == {} && !(snapshot <= s.fulfilled))
       case Releasing(_, timedOut, before) =>
         before <= s.accepted && (timedOut || forall d: nat :: d < before ==> Settled(s, Dispatch(d)))
       case Stopped(timedOut, before) =>
         before <= s.accepted && (timedOut || forall d: nat :: d < before ==> Settled(s, Dispatch(d)))
       case Aborted => s.rejected != {}
  }

  lemma {:induction false} StepDrains(s: State, e: Event)
    requires Drains(s) && Enabled(s, e)
    ensures Drains(Step(s, e))
  {
    var settled := TaskSettled(s, e);
    if settled.Some? {
      TaskSettlesDrains(s, settled.value.0, settled.value.1);
    } else if e.CallStop? || e.StopResumes? {
      StopDrains(s, e);
    } else if e.Inbound? || e.WorkBegins? || e.TaskForgotten? {
      InflightDrains(s, e);
    } else {
      OtherDrains(s, e);
    }
  }

  lemma {:induction false} TaskSettlesDrains(s: State, t: Task, ok: bool)
    requires Drains(s) && TaskOpen(s, t)
    ensures Drains(OnTaskSettles(s, t, ok))
  {
  }

  lemma {:induction false} StopDrains(s: State, e: Event)
    requires Drains(s) && Enabled(s, e) && (e.CallStop? || e.StopResumes?)
    ensures Drains(Step(s, e))
  {
  }

  lemma {:induction false} InflightDrains(s: State, e: Event)
    requires Drains(s) && Enabled(s, e) && (e.Inbound? || e.WorkBegins? || e.TaskForgotten?)
    ensures Drains(Step(s, e))
  {
  }

  lemma {:induction false} OtherDrains(s: State, e: Event)
    requires Drains(s) && Enabled(s, e) && TaskSettled(s, e).None? && !e.CallStop? && !e.StopResumes?
    requires !e.Inbound? && !e.WorkBegins? && !e.TaskForgotten?
    ensures Drains(Step(s, e))
  {
  }

  lemma {:induction false} RunsDrain(s: State, events: seq<Event>)
    requires Drains(s) && Possible(s, events)
    ensures Drains(After(s, events))
    decreases |events|
  {
    if events != [] {
      StepDrains(s, events[0]);
      RunsDrain(Step(s, events[0]), events[1..]);
    }
  }

  /** `stop()` calls `disconnect` only once every dispatch accepted before it settled, or its timer fired. */
  lemma {:induction false} StopWaitsForDispatches(platforms: seq<nat>, mode: Mode, events: seq<Event>, s: State, d: nat)
    requires Reached(platforms, mode, events, s)
    requires (s.stop.Releasing? || s.stop.Stopped?) && !s.stop.timedOut && d < s.stop.before
    ensures Settled(s, Dispatch(d))
  {
    RunsDrain(Initial(platforms, mode), events);
  }

  /** The race of `stop()` is lost: the drain rejects. */
  predicate Lost(s: State) {
    s.stop.Draining? && s.stop.race == OneRejected
  }

  /**
   Exactly what loses the race: `stop()` finding something in flight that already rejected and is not
   forgotten yet, or something it drains rejecting while the race is open.
   */
  predicate Loses(s: State, e: Event)
    requires Enabled(s, e)
  {
    || (e.CallStop? && !s.stopped && s.inflight * s.rejected != {})
    || (s.stop.Draining? && s.stop.race == Open
        && match TaskSettled(s, e) case Some((t, ok)) => !ok && t in s.stop.snapshot case None => false)
  }

  /** Exactly which events lose the race, and that `stop()` rejects exactly when it resumes from a lost one. */
  lemma {:induction false} RejectionDecidesRace(
      platforms: seq<nat>, mode: Mode, events: seq<Event>, s: State, e: Event)
    requires Reached(platforms, mode, events, s) && Enabled(s, e)
    ensures !Lost(s) ==> (Lost(Step(s, e)) <==> Loses(s, e))
    ensures !s.stop.Aborted? ==> (Step(s, e).stop.Aborted? <==> e.StopResumes? && Lost(s))
  {
    ReachedKeeps(platforms, mode, events, s);
    RunsDrain(Initial(platforms, mode), events);
    var settled := TaskSettled(s, e);
    if settled.Some? {
      if s.stop.Draining? { SettlingLoses(s, settled.value.0, settled.value.1); }
    } else if !Lost(s) {
      OtherEventsLose(s, e);
    }
  }

  lemma {:induction false} OtherEventsLose(s: State, e: Event)
    requires StopAgrees(s) && Enabled(s, e) && TaskSettled(s, e).None? && !Lost(s)
    ensures Lost(Step(s, e)) <==> e.CallStop? && !s.stopped && s.inflight * s.rejected != {}
  {
  }

  lemma {:induction false} SettlingLoses(s: State, t: Task, ok: bool)
    requires Drains(s) && s.stop.Draining?
    ensures var race := OnTaskSettles(s, t, ok).stop.race;
            if s.stop.race != Open then race == s.stop.race
            else race == OneRejected <==> !ok && t in s.stop.snapshot
  {
    var snapshot := s.stop.snapshot;
    if s.stop.race == Open && !ok {
      assert t in snapshot ==> t in snapshot * (s.rejected + {t});
      assert forall u :: u in snapshot * (s.rejected + {t}) ==> u == t || u in snapshot * s.rejected;
    }
  }

  // ---- when stop() itself rejects ----

  /** A handler, a hook or the event itself fails in a way nothing around it contains. */
  predicate Escapes(e: Event) {
    (e.WorkEnds? || e.DispatchBlocked?) && !Contained(e.ending)
  }

  lemma {:induction false} OnlyEscapesReject(s: State, events: seq<Event>)
    requires s.rejected == {} && Possible(s, events)
    requires forall i :: 0 <= i < |events| ==> !Escapes(events[i])
    ensures After(s, events).rejected == {}
    decreases |events|
  {
    if events != [] {
      assert !Escapes(events[0]);
      assert forall i :: 0 <= i < |events| - 1 ==> events[1..][i] == events[i + 1];
      OnlyEscapesReject(Step(s, events[0]), events[1..]);
    }
  }

  /** While every fault is contained, `stop()` never rejects. */
  lemma {:induction false} ContainedNeverAborts(platforms: seq<nat>, mode: Mode, events: seq<Event>, s: State)
    requires Reached(platforms, mode, events, s)
    requires forall i :: 0 <= i < |events| ==> !Escapes(events[i])
    ensures !s.stop.Aborted? && !Lost(s)
  {
    OnlyEscapesReject(Initial(platforms, mode), events);
    RunsDrain(Initial(platforms, mode), events);
  }

  /** One adapter's event arrived, and reached its handler if `handled`. */
  function Dispatching(platforms: seq<nat>, mode: Mode, handled: bool): State {
    Serving(platforms, mode).(accepted := 1, inflight := {Dispatch(0)} + (if handled then {Work(0)} else {}))
  }

  lemma {:induction false} EventArrives(platforms: seq<nat>, mode: Mode, handled: bool) returns (events: seq<Event>)
    requires platforms != []
    ensures Reached(platforms, mode, events, Dispatching(platforms, mode, handled))
  {
    var s0, s1, s2 := Initial(platforms, mode), Serving(platforms, mode), Dispatching(platforms, mode, false);
    var es := ServingIsReached(platforms, mode);
    Extend(s0, es, s1, Inbound(0));
    assert Step(s1, Inbound(0)).inflight == s2.inflight;
    events := es + [Inbound(0)];
    if handled {
      Extend(s0, events, s2, WorkBegins(0));
      events := events + [WorkBegins(0)];
    }
  }

  /** How that event's dispatch fails. */
  function Failure(ending: Ending): Event {
    if ByHandler(ending) then WorkEnds(0, ending) else DispatchBlocked(0, ending)
  }

  /**
   Whatever the platforms, the mode and the fault, one fault that is not contained makes `stop()` reject
   with every adapter still live: while it drains, or when it is called before the drain set forgot it.
   */
  lemma {:induction false} AbortLeavesLive(platforms: seq<nat>, mode: Mode, ending: Ending, during: bool)
    returns (events: seq<Event>, s: State)
    requires platforms != [] && !Contained(ending)
    ensures Reached(platforms, mode, events, s)
    ensures s.stop.Aborted? && s.run.Idle? && s.live == Firsts(platforms, |platforms|) && s.undisconnected == {}
  {
    var s0, s1, failure := Initial(platforms, mode), Dispatching(platforms, mode, ByHandler(ending)), Failure(ending);
    var task := if ByHandler(ending) then Work(0) else Dispatch(0);
    var es := EventArrives(platforms, mode, ByHandler(ending));
    var e1, e2 := if during then CallStop else failure, if during then failure else CallStop;
    var s2 := Step(s1, e1);
    if during {
      assert s2.stop == Draining(s1.inflight, Open, 1) by {
        assert s1.inflight * s1.rejected == {} && Dispatch(0) in s1.inflight && Dispatch(0) !in s1.fulfilled;
      }
    }
    Extend(s0, es, s1, e1);
    Extend(s0, es + [e1], s2, e2);
    var s3 := Step(s2, e2);
    assert task in s1.inflight * {task} && s3.rejected == {task};
    assert Lost(s3);
    Extend(s0, es + [e1] + [e2], s3, StopResumes);
    events := es + [e1] + [e2] + [StopResumes];
    s := Step(s3, StopResumes);
  }
}
