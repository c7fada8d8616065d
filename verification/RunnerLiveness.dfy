/**
 What the calls of the runner bring about: `stop()` takes hold at once and for good, and whatever is
 pending can settle (packages/gateway/src/runner/gateway-runner.ts).
 */
module RunnerLiveness {
  import opened Options
  import opened Runner
  import opened RunnerTheorems

  // ---- a call of stop() ----

  /** What `stop()` has done by its first await, whatever is pending. */
  lemma {:induction false} StopTakesHold(platforms: seq<nat>, mode: Mode, events: seq<Event>, s: State)
    requires Reached(platforms, mode, events, s)
    ensures var t := Step(s, CallStop);
            && t.stopped && t.wired == {} && !t.stop.Running?
            && t.run == s.run && t.live == s.live && t.everWired == s.everWired
            && (s.stopped ==> t == s)
            && (!s.stopped && s.inflight == {} ==>
                  && t.stop == Releasing(MapValues(platforms), false, s.accepted)
                  && t.held == s.held - MapValues(platforms))
            && (!s.stopped && s.inflight != {} ==>
                  && t.stop.Draining? && t.stop.snapshot == s.inflight && t.stop.before == s.accepted
                  && t.held == s.held)
  {
    ReachedKeeps(platforms, mode, events, s);
  }

  /** Once stopped, on every run: stopped for good, nothing wired any more, and a start resolves with nothing. */
  lemma {:induction false} StoppedForGood(s: State, events: seq<Event>)
    requires Inv(s) && s.stopped && Possible(s, events)
    ensures var t := After(s, events);
            && t.stopped && t.wired == {} && t.everWired == s.everWired
            && (s.startResult.Some? ==> t.startResult == s.startResult)
            && (s.startResult.None? && t.startResult.Some? ==> t.startResult.value.connected == {})
    decreases |events|
  {
    if events != [] {
      StepKeeps(s, events[0]);
      StoppedStep(s, events[0]);
      StoppedForGood(Step(s, events[0]), events[1..]);
    }
  }

  lemma {:induction false} StoppedStep(s: State, e: Event)
    requires Inv(s) && s.stopped && Enabled(s, e)
    ensures var t := Step(s, e);
            && t.stopped && t.everWired == s.everWired
            && (s.startResult.Some? ==> t.startResult == s.startResult)
            && (s.startResult.None? && t.startResult.Some? ==> t.startResult.value.connected == {})
  {
  }

  // ---- everything pending can settle ----

  function RunRank(s: State): nat {
    match s.run
    case Idle => 0
    case Rejected(_) => 1
    case RollingBack(_, _) => 2
    case Overtaken(_, _) => 2
    case Judged(_, _) => 3
    case Connecting(_, _) => 4
  }

  function RunCount(s: State): nat {
    |PendingConnects(s)| + |StartWaiting(s)|
  }

  /** The next thing a pending start waits for, going well. */
  ghost function NextOfStart(s: State): Event
    requires !s.run.Idle?
  {
    if s.run.Connecting? then
      if PendingConnects(s) == {} then ConnectsJudged
      else
        var a :| a in PendingConnects(s);
        ConnectSettles(a, Connected)
    else if s.run.Judged? then RunResumes
    else if s.run.Rejected? then StartCleared
    else if StartWaiting(s) == {} then ReleaseDone
    else
      var a :| a in StartWaiting(s);
      ReleaseSettles(a, true)
  }

  /** The start came one step further, and nothing of a stop changed. */
  predicate FurtherStart(s: State, t: State) {
    && (RunRank(t) < RunRank(s) || (RunRank(t) == RunRank(s) && RunCount(t) < RunCount(s)))
    && t.undisconnected == s.undisconnected && t.stop == s.stop && t.stopped == s.stopped
    && t.inflight == s.inflight && t.accepted == s.accepted
  }

  lemma {:induction false} StartAdvances(s: State, e: Event)
    requires Inv(s) && !s.run.Idle? && e == NextOfStart(s)
    ensures Enabled(s, e) && FurtherStart(s, Step(s, e))
  {
    if e.ConnectSettles? {
      ConnectAdvances(s, e.adapter);
    } else if e.ReleaseSettles? {
      ReleaseAdvances(s, e.adapter);
    }
  }

  lemma {:induction false} ConnectAdvances(s: State, a: nat)
    requires s.run.Connecting? && a in PendingConnects(s)
    ensures FurtherStart(s, Step(s, ConnectSettles(a, Connected)))
  {
    var t := Step(s, ConnectSettles(a, Connected));
    assert PendingConnects(t) == PendingConnects(s) - {a};
    assert StartWaiting(t) == StartWaiting(s) == {};
  }

  lemma {:induction false} ReleaseAdvances(s: State, a: nat)
    requires a in StartWaiting(s)
    ensures FurtherStart(s, Step(s, ReleaseSettles(a, true)))
  {
    var t := Step(s, ReleaseSettles(a, true));
    assert StartWaiting(t) == StartWaiting(s) - {a};
    assert PendingConnects(t) == PendingConnects(s) == {};
  }

  /** From every state whatever a start waits for can settle, and then the start is over. */
  lemma {:induction false} StartSettles(s: State) returns (events: seq<Event>, t: State)
    requires Inv(s)
    ensures Possible(s, events) && t == After(s, events) && Inv(t) && t.run.Idle?
    ensures t.undisconnected == s.undisconnected && t.stop == s.stop && t.stopped == s.stopped
    ensures t.inflight == s.inflight && t.accepted == s.accepted
    decreases RunRank(s), RunCount(s)
  {
    if s.run.Idle? {
      events, t := [], s;
    } else {
      var e := NextOfStart(s);
      StartAdvances(s, e);
      StepKeeps(s, e);
      var rest;
      rest, t := StartSettles(Step(s, e));
      events := [e] + rest;
      assert events[0] == e && events[1..] == rest;
    }
  }

  function StopRank(s: State): nat {
    match s.stop
    case Running => 0
    case Draining(_, race, _) => if race == Open then 3 else 2
    case Releasing(_, _, _) => 1
    case Stopped(_, _) => 0
    case Aborted => 0
  }

  predicate Stopping(s: State) {
    (s.stop.Draining? && !Lost(s)) || s.stop.Releasing?
  }

  ghost function NextOfStop(s: State): Event
    requires Stopping(s)
  {
    match s.stop
    case Draining(_, race, _) => if race == Open then DrainTimer else StopResumes
    case Releasing(waiting, _, _) =>
      if waiting == {} then StopDone
      else
        var a :| a in waiting;
        StopReleaseSettles(a, true)
  }

  lemma {:induction false} StopAdvances(s: State, e: Event)
    requires Stopping(s) && e == NextOfStop(s)
    ensures Enabled(s, e)
    ensures var t := Step(s, e);
            && (StopRank(t) < StopRank(s) || (StopRank(t) == StopRank(s) && |StopWaiting(t)| < |StopWaiting(s)|))
            && t.undisconnected == s.undisconnected && t.run == s.run
            && (Stopping(t) || t.stop.Stopped?)
  {
    if e.StopReleaseSettles? {
      assert StopWaiting(Step(s, e)) == StopWaiting(s) - {e.adapter};
    }
  }

  /** From every state of a `stop()` whose drain is not lost, it can come to its end. */
  lemma {:induction false} StopSettles(s: State) returns (events: seq<Event>, t: State)
    requires Inv(s) && (Stopping(s) || s.stop.Stopped?)
    ensures Possible(s, events) && t == After(s, events) && t.stop.Stopped?
    ensures t.undisconnected == s.undisconnected && t.run == s.run
    decreases StopRank(s), |StopWaiting(s)|
  {
    if s.stop.Stopped? {
      events, t := [], s;
    } else {
      var e := NextOfStop(s);
      StopAdvances(s, e);
      StepKeeps(s, e);
      var rest;
      rest, t := StopSettles(Step(s, e));
      events := [e] + rest;
      assert events[0] == e && events[1..] == rest;
    }
  }

  /**
   From every state before `stop()` and whatever is pending, with distinct platforms: a `stop()` whose
   drain is not lost at once has a continuation in which everything settles, and it leaves no adapter
   live but those whose disconnect had failed already, and none wired that was not.
   */
  lemma {:induction false} StopReachesRest(platforms: seq<nat>, mode: Mode, past: seq<Event>, s: State)
    returns (events: seq<Event>, t: State)
    requires Reached(platforms, mode, past, s) && Distinct(platforms)
    requires !s.stopped && s.inflight * s.rejected == {}
    ensures Possible(Step(s, CallStop), events) && t == After(Step(s, CallStop), events)
    ensures AtRest(t) && t.live <= s.undisconnected && t.wired == {} && t.everWired == s.everWired
  {
    var s0, s1 := Initial(platforms, mode), Step(s, CallStop);
    ReachedKeeps(platforms, mode, past, s);
    StepKeeps(s, CallStop);
    var es, s2 := StartSettles(s1);
    var fs;
    fs, t := StopSettles(s2);
    Chain(s1, es, fs);
    events := es + fs;
    StoppedForGood(s1, events);
    Extend(s0, past, s, CallStop);
    Chain(s0, past + [CallStop], events);
    StoppedLeavesNoneLive(platforms, mode, past + [CallStop] + events, t);
  }

  // ---- how a start ends ----

  /** Once every connect settled: a rollback exactly when one failed under it, and who connected and who did not. */
  lemma {:induction false} RollbackExactly(platforms: seq<nat>, mode: Mode, events: seq<Event>, s: State)
    requires Reached(platforms, mode, events, s) && Enabled(s, ConnectsJudged)
    ensures var t, results := Step(s, ConnectsJudged), s.run.results;
            && (t.run.RollingBack? <==> mode == Rollback && exists i :: 0 <= i < |results| && results[i] != Connected)
            && (t.run.RollingBack? ==>
                  t.held == {} && forall i :: i in t.run.waiting <==> 0 <= i < |results| && results[i] == Connected)
            && (!t.run.RollingBack? ==>
                  && t.run.Judged? && t.held == s.held
                  && (forall i :: i in t.run.connected <==> 0 <= i < |results| && results[i] == Connected)
                  && (forall i :: i in t.run.failed <==> 0 <= i < |results| && results[i] != Connected))
  {
    ReachedKeeps(platforms, mode, events, s);
    ModeStays(Initial(platforms, mode), events);
    assert PendingConnects(s) == {};
    if i :| 0 <= i < |s.run.results| && s.run.results[i] != Connected {
      assert i in FailedOf(s.run.results) && i !in PendingConnects(s);
    }
    if s.run.failures != [] {
      var i :| i in FailedOf(s.run.results) && i !in PendingConnects(s);
    }
  }

  /** The failures a start reports are those of its judged connects, whatever overtakes it meanwhile. */
  predicate Names(s: State, failed: set<nat>) {
    match s.run
    case Judged(_, f) => f == failed
    case Overtaken(_, f) => f == failed
    case Idle => s.startResult.Some? && s.startResult.value.failed == failed
    case _ => false
  }

  lemma {:induction false} FailedNamed(s: State, failed: set<nat>, events: seq<Event>)
    requires Inv(s) && Names(s, failed) && Possible(s, events)
    ensures Names(After(s, events), failed)
    decreases |events|
  {
    if events != [] {
      StepKeeps(s, events[0]);
      FailedNamed(Step(s, events[0]), failed, events[1..]);
    }
  }

  /** Once the connects are judged with no rollback, the result names exactly the adapters that failed. */
  lemma {:induction false} ResultNamesFailures(
      platforms: seq<nat>, mode: Mode, past: seq<Event>, s: State, events: seq<Event>, t: State)
    requires Reached(platforms, mode, past, s) && Enabled(s, ConnectsJudged)
    requires !Step(s, ConnectsJudged).run.RollingBack?
    requires Possible(Step(s, ConnectsJudged), events) && t == After(Step(s, ConnectsJudged), events)
    requires t.startResult.Some?
    ensures forall i :: i in t.startResult.value.failed <==> 0 <= i < |s.run.results| && s.run.results[i] != Connected
  {
    ReachedKeeps(platforms, mode, past, s);
    RollbackExactly(platforms, mode, past, s);
    StepKeeps(s, ConnectsJudged);
    var s1 := Step(s, ConnectsJudged);
    FailedNamed(s1, s1.run.failed, events);
    StepKeeps(s, ConnectsJudged);
    RunsKeep(s1, events);
  }

  predicate NoRollback(s: State) {
    s.mode == Isolate && !s.run.RollingBack? && !s.run.Rejected?
  }

  lemma {:induction false} RunsNeverReject(s: State, events: seq<Event>)
    requires NoRollback(s) && Possible(s, events)
    ensures NoRollback(After(s, events))
    decreases |events|
  {
    if events != [] {
      RunsNeverReject(Step(s, events[0]), events[1..]);
    }
  }

  /** Under `"isolate"` no start is ever rolled back or rejected. */
  lemma {:induction false} IsolateNeverRejects(platforms: seq<nat>, events: seq<Event>, s: State)
    requires Reached(platforms, Isolate, events, s)
    ensures !s.run.RollingBack? && !s.run.Rejected?
  {
    RunsNeverReject(Initial(platforms, Isolate), events);
  }

  /** The failure a pending start will report is that of adapter `a`. */
  predicate Reports(s: State, a: nat) {
    match s.run
    case Connecting(_, failures) => failures != [] && failures[0] == a
    case RollingBack(_, failure) => failure == a
    case Rejected(failure) => failure == a
    case Judged(_, _) => s.mode == Isolate || s.stopped
    case _ => true
  }

  lemma {:induction false} ReportStays(s: State, a: nat, events: seq<Event>)
    requires Reports(s, a) && !s.run.Idle? && !s.run.Overtaken? && s.mode == Rollback && !s.run.Judged?
    requires Possible(s, events) && forall i :: 0 <= i < |events| ==> !events[i].StartCleared? && !events[i].CallStart?
    ensures var t := After(s, events); Reports(t, a) && (t.run.Connecting? || t.run.RollingBack? || t.run.Rejected?)
    decreases |events|
  {
    if events != [] {
      assert !events[0].StartCleared? && !events[0].CallStart?;
      assert forall i :: 0 <= i < |events| - 1 ==> events[1..][i] == events[i + 1];
      ReportStays(Step(s, events[0]), a, events[1..]);
    }
  }

  /**
   Under `"rollback"` a start in which a connect fails is rejected with the failure that came first:
   until it is over, no later event changes that.
   */
  lemma {:induction false} FirstFailureReported(
      platforms: seq<nat>, past: seq<Event>, s: State, a: nat, result: Settling, events: seq<Event>, t: State)
    requires Reached(platforms, Rollback, past, s) && Enabled(s, ConnectSettles(a, result)) && result != Connected
    requires forall i :: 0 <= i < |s.run.results| ==> s.run.results[i] == Pending || s.run.results[i] == Connected
    requires var s1 := Step(s, ConnectSettles(a, result)); Possible(s1, events) && t == After(s1, events)
    requires forall i :: 0 <= i < |events| ==> !events[i].StartCleared? && !events[i].CallStart?
    ensures t.run.Connecting? || t.run.RollingBack? || t.run.Rejected?
    ensures (t.run.RollingBack? || t.run.Rejected?) ==> t.run.failure == a
  {
    ReachedKeeps(platforms, Rollback, past, s);
    ModeStays(Initial(platforms, Rollback), past);
    assert FailedOf(s.run.results) <= PendingConnects(s);
    ReportStays(Step(s, ConnectSettles(a, result)), a, events);
  }

  /** A rejected start is forgotten, and the next call connects every adapter again. */
  lemma {:induction false} RejectedStartRetries(platforms: seq<nat>, mode: Mode, past: seq<Event>, s: State)
    requires Reached(platforms, mode, past, s) && s.run.Rejected? && !s.stopped
    ensures Enabled(s, StartCleared)
    ensures var t := Step(Step(s, StartCleared), CallStart);
            t.startInFlight && t.run.Connecting? && PendingConnects(t) == All(t)
  {
    ReachedKeeps(platforms, mode, past, s);
    var t := Step(Step(s, StartCleared), CallStart);
    assert forall i: nat :: i < |t.run.results| ==> t.run.results[i] == Pending;
  }

  // ---- the drain timer, and what the world did ----

  predicate NotTimedOut(s: State) {
    && (s.stop.Draining? ==> s.stop.race != TimedOut)
    && (s.stop.Releasing? || s.stop.Stopped? ==> !s.stop.timedOut)
  }

  /** While the drain timer has not fired, no `stop()` counts as timed out. */
  lemma {:induction false} OnlyTheTimerTimesOut(s: State, events: seq<Event>)
    requires NotTimedOut(s) && Possible(s, events)
    requires forall i :: 0 <= i < |events| ==> !events[i].DrainTimer?
    ensures NotTimedOut(After(s, events))
    decreases |events|
  {
    if events != [] {
      assert !events[0].DrainTimer?;
      assert forall i :: 0 <= i < |events| - 1 ==> events[1..][i] == events[i + 1];
      OnlyTheTimerTimesOut(Step(s, events[0]), events[1..]);
    }
  }

  predicate Counts(s: State, before: nat) {
    match s.stop
    case Running => false
    case Draining(_, _, b) => b == before
    case Releasing(_, _, b) => b == before
    case Stopped(_, b) => b == before
    case Aborted => true
  }

  lemma {:induction false} CountStays(s: State, before: nat, events: seq<Event>)
    requires Counts(s, before) && s.stopped && Possible(s, events)
    ensures Counts(After(s, events), before)
    decreases |events|
  {
    if events != [] {
      CountStays(Step(s, events[0]), before, events[1..]);
    }
  }

  /** With no timer, `stop()` calls a disconnect only once every dispatch accepted before it has settled. */
  lemma {:induction false} UntimedStopDrains(
      platforms: seq<nat>, mode: Mode, past: seq<Event>, s: State, events: seq<Event>, t: State, d: nat)
    requires Reached(platforms, mode, past, s) && !s.stopped && d < s.accepted
    requires Possible(Step(s, CallStop), events) && t == After(Step(s, CallStop), events)
    requires forall i :: 0 <= i < |events| ==> !events[i].DrainTimer?
    requires t.stop.Releasing? || t.stop.Stopped?
    ensures Settled(t, Dispatch(d))
  {
    StopTakesHold(platforms, mode, past, s);
    var s0, s1 := Initial(platforms, mode), Step(s, CallStop);
    OnlyTheTimerTimesOut(s1, events);
    CountStays(s1, s.accepted, events);
    Extend(s0, past, s, CallStop);
    Chain(s0, past + [CallStop], events);
    StopWaitsForDispatches(platforms, mode, past + [CallStop] + events, t, d);
  }

  /** An adapter comes to life only by connecting, and stops only by a disconnect that succeeded. */
  lemma {:induction false} LiveChanges(platforms: seq<nat>, mode: Mode, events: seq<Event>, s: State, e: Event, a: nat)
    requires Reached(platforms, mode, events, s) && Enabled(s, e)
    ensures a in Step(s, e).live && a !in s.live <==> e == ConnectSettles(a, Connected) && a !in s.live
    ensures a !in Step(s, e).live && a in s.live <==>
              a in s.live && (e == ReleaseSettles(a, true) || (e == StopReleaseSettles(a, true) && a !in s.stale))
    ensures a in Step(s, e).undisconnected <==>
              a in s.undisconnected || e == ReleaseSettles(a, false) || e == StopReleaseSettles(a, false)
  {
    ReachedKeeps(platforms, mode, events, s);
  }

  // ---- one dispatch ----

  /** From every state: an event of a wired adapter is handled, and leaves the drain set as it was. */
  lemma {:induction false} DispatchRunsThrough(platforms: seq<nat>, mode: Mode, past: seq<Event>, s: State, a: nat)
    returns (events: seq<Event>, t: State)
    requires Reached(platforms, mode, past, s) && a in s.everWired
    ensures Possible(s, events) && t == After(s, events)
    ensures t.accepted == s.accepted + 1 && t.inflight == s.inflight
    ensures t.fulfilled == s.fulfilled + {Dispatch(s.accepted), Work(s.accepted)} && t.rejected == s.rejected
  {
    TasksAreKnown(Initial(platforms, mode), past);
    var es, s1 := HandlerBegins(s, a);
    var fs;
    fs, t := HandlerEnds(s1, s.accepted);
    Chain(s, es, fs);
    events := es + fs;
    assert !TaskKnown(s, Dispatch(s.accepted)) && !TaskKnown(s, Work(s.accepted));
    assert t.inflight == s.inflight;
  }

  lemma {:induction false} HandlerBegins(s: State, a: nat) returns (events: seq<Event>, t: State)
    requires AllKnown(s) && a in s.everWired
    ensures Possible(s, events) && t == After(s, events)
    ensures t == s.(accepted := s.accepted + 1, inflight := s.inflight + {Dispatch(s.accepted), Work(s.accepted)})
  {
    var d, s1 := s.accepted, Step(s, Inbound(a));
    assert !TaskKnown(s, Dispatch(d)) && !TaskKnown(s, Work(d));
    Extend(s, [], s, Inbound(a));
    Extend(s, [] + [Inbound(a)], s1, WorkBegins(d));
    events := [] + [Inbound(a)] + [WorkBegins(d)];
    t := Step(s1, WorkBegins(d));
    assert t.inflight == s.inflight + {Dispatch(d), Work(d)};
  }

  lemma {:induction false} HandlerEnds(s: State, d: nat) returns (events: seq<Event>, t: State)
    requires Dispatch(d) in s.inflight && Work(d) in s.inflight && TaskOpen(s, Dispatch(d)) && TaskOpen(s, Work(d))
    ensures Possible(s, events) && t == After(s, events)
    ensures t.accepted == s.accepted && t.inflight == s.inflight - {Dispatch(d), Work(d)}
    ensures t.fulfilled == s.fulfilled + {Dispatch(d), Work(d)} && t.rejected == s.rejected
  {
    var e0, e1, e2, e3 := WorkEnds(d, Finished), DispatchEnds(d), TaskForgotten(Work(d)), TaskForgotten(Dispatch(d));
    var s1 := Step(s, e0);
    Extend(s, [], s, e0);
    var s2 := Step(s1, e1);
    Extend(s, [] + [e0], s1, e1);
    assert s2.fulfilled == s.fulfilled + {Dispatch(d), Work(d)} && s2.inflight == s.inflight;
    var s3 := Step(s2, e2);
    Extend(s, [] + [e0] + [e1], s2, e2);
    Extend(s, [] + [e0] + [e1] + [e2], s3, e3);
    events := [] + [e0] + [e1] + [e2] + [e3];
    t := Step(s3, e3);
  }

  ghost predicate AllKnown(s: State) {
    && (forall u :: u in s.inflight ==> TaskKnown(s, u))
    && (forall u :: u in s.fulfilled ==> TaskKnown(s, u))
    && (forall u :: u in s.rejected ==> TaskKnown(s, u))
  }

  lemma {:induction false} TasksAreKnown(s: State, events: seq<Event>)
    requires AllKnown(s) && Possible(s, events)
    ensures AllKnown(After(s, events))
    decreases |events|
  {
    if events != [] {
      KnownStep(s, events[0]);
      TasksAreKnown(Step(s, events[0]), events[1..]);
    }
  }

  lemma {:induction false} KnownStep(s: State, e: Event)
    requires AllKnown(s) && Enabled(s, e)
    ensures AllKnown(Step(s, e))
  {
  }
}
