/** The class `GatewayRunner`, method by method against the steps of `Runner`. */
module RunnerObject {
  import opened Options
  import opened Runner
  import opened RunnerTheorems

  /** What a `start()` call is given: a refusal, the memoised result, or the shared pending start. */
  datatype Answer = RunnerStopped | Already(result: StartResult) | Shared

  class GatewayRunner {
    const adapters: seq<nat>  // the platform each adapter reports
    const mode: Mode
    var adaptersByPlatform: map<nat, nat>
    var inflight: set<Task>
    var unsubs: set<nat>
    var startResult: Option<StartResult>
    var startInFlight: bool
    var stopped: bool
    // suspended calls
    var run: RunPhase
    var stopping: StopPhase
    var accepted: nat
    // the world outside
    ghost var live: set<nat>
    ghost var held: set<nat>
    ghost var stale: set<nat>
    ghost var undisconnected: set<nat>
    ghost var everWired: set<nat>
    var fulfilled: set<Task>
    var rejected: set<Task>
    ghost var events: seq<Event>  // everything that happened to this object

    ghost function View(): State
      reads this
    {
      State(adapters, mode, stopped, startResult, startInFlight, inflight, unsubs, run, stopping,
            live, held, stale, undisconnected, everWired, accepted, fulfilled, rejected)
    }

    /** The object is where its run leads, and the platform map holds for every platform the adapter given last. */
    ghost predicate Valid()
      reads this
    {
      adaptersByPlatform.Values == MapValues(adapters) && Reached(adapters, mode, events, View())
    }

    constructor (adapters: seq<nat>, mode: Mode)
      ensures Valid() && View() == Initial(adapters, mode)
    {
      this.adapters, this.mode := adapters, mode;
      inflight, unsubs, startResult, startInFlight, stopped := {}, {}, None, false, false;
      run, stopping, accepted := Idle, Running, 0;
      live, held, stale, undisconnected, everWired, fulfilled, rejected := {}, {}, {}, {}, {}, {}, {};
      adaptersByPlatform, events := map[], [];
      new;
      for i := 0 to |adapters|
        invariant View() == Initial(adapters, mode) && events == []
        invariant forall p :: p in adaptersByPlatform <==> p in adapters[..i]
        invariant forall p :: p in adaptersByPlatform ==>
                    adaptersByPlatform[p] < i && adapters[adaptersByPlatform[p]] == p
        invariant forall p, j :: p in adaptersByPlatform && adaptersByPlatform[p] < j < i ==> adapters[j] != p
        modifies this`adaptersByPlatform
      {
        adaptersByPlatform := adaptersByPlatform[adapters[i] := i];
      }
      LastOfEach(adapters, adaptersByPlatform);
    }

    /** `start()`: line 195. */
    method Start() returns (answer: Answer)
      requires Valid()
      modifies this
      ensures Valid() && View() == Step(old(View()), CallStart) && events == old(events) + [CallStart]
      ensures answer == if old(stopped) then RunnerStopped
                        else if old(startResult).Some? then Already(old(startResult).value) else Shared
    {
      Extend(Initial(adapters, mode), events, View(), CallStart);
      events := events + [CallStart];
      if stopped { return RunnerStopped; }
      match startResult {
        case Some(r) => return Already(r);
        case None =>
      }
      if !startInFlight {
        run := Connecting(seq(|adapters|, _ => Pending), []);
        startInFlight := true;
      }
      answer := Shared;
    }

    /** One adapter's `connect` settles: the wrapper of line 256 records a failure when it happens. */
    method OnConnect(a: nat, result: Settling)
      requires Valid() && Enabled(View(), ConnectSettles(a, result))
      modifies this
      ensures Valid() && View() == Step(old(View()), ConnectSettles(a, result))
      ensures events == old(events) + [ConnectSettles(a, result)]
    {
      Extend(Initial(adapters, mode), events, View(), ConnectSettles(a, result));
      events := events + [ConnectSettles(a, result)];
      RecordConnect(a, result);
    }

    method RecordConnect(a: nat, result: Settling)
      requires run.Connecting? && a < |run.results|
      modifies this`run, this`live, this`held, this`stale
      ensures View() == OnConnectSettles(old(View()), a, result)
    {
      if result == Connected {
        stale := if stopping.Releasing? && a in stopping.waiting then stale + {a} else stale;
        live, held := live + {a}, held + {a};
      }
      run := Connecting(run.results[a := result], if result == Connected then run.failures else run.failures + [a]);
    }

    /** Every connect settled: lines 272-278 and 289-296. */
    method JudgeConnects()
      requires Valid() && Enabled(View(), ConnectsJudged)
      modifies this
      ensures Valid() && View() == Step(old(View()), ConnectsJudged) && events == old(events) + [ConnectsJudged]
    {
      Extend(Initial(adapters, mode), events, View(), ConnectsJudged);
      events := events + [ConnectsJudged];
      var connected, failed := SortConnects(run.results);
      if mode == Rollback && run.failures != [] {
        held := held - connected;
        run := RollingBack(connected, run.failures[0]);
      } else {
        run := Judged(connected, failed);
      }
    }

    static method SortConnects(results: seq<Settling>) returns (connected: set<nat>, failed: set<nat>)
      ensures connected == ConnectedOf(results) && failed == FailedOf(results)
    {
      connected, failed := {}, {};
      for i := 0 to |results|
        invariant connected == ConnectedOf(results[..i]) && failed == FailedOf(results[..i])
      {
        SortedFurther(results, i);
        if results[i] == Connected { connected := connected + {i}; } else { failed := failed + {i}; }
      }
      assert results[..|results|] == results;
    }

    /** `runStart` resumes: give the adapters back when `stop()` overtook it, else wire them (lines 229-242). */
    method ResumeStart()
      requires Valid() && Enabled(View(), RunResumes)
      modifies this
      ensures Valid() && View() == Step(old(View()), RunResumes) && events == old(events) + [RunResumes]
      ensures !stopped ==> startResult.Some? && unsubs == startResult.value.connected
                           && unsubs <= live <= unsubs + undisconnected
    {
      Extend(Initial(adapters, mode), events, View(), RunResumes);
      events := events + [RunResumes];
      if stopped {
        held := held - run.connected;
        run := Overtaken(run.connected, run.failed);
      } else {
        WireInbound();
        WiredAreLive(adapters, mode, events, View());
      }
    }

    /** Lines 237-242. */
    method WireInbound()
      requires run.Judged? && !stopped
      modifies this`run, this`unsubs, this`everWired, this`startResult
      ensures View() == OnRunResumes(old(View()))
    {
      unsubs, everWired := unsubs + run.connected, everWired + run.connected;
      startResult := Some(StartResult(run.connected, run.failed));
      run := Idle;
    }

    method OnRelease(a: nat, ok: bool)
      requires Valid() && Enabled(View(), ReleaseSettles(a, ok))
      modifies this
      ensures Valid() && View() == Step(old(View()), ReleaseSettles(a, ok))
      ensures events == old(events) + [ReleaseSettles(a, ok)]
    {
      Extend(Initial(adapters, mode), events, View(), ReleaseSettles(a, ok));
      events := events + [ReleaseSettles(a, ok)];
      if ok { live := live - {a}; } else { undisconnected := undisconnected + {a}; }
      match run {
        case RollingBack(waiting, failure) => run := RollingBack(waiting - {a}, failure);
        case Overtaken(waiting, failed) => run := Overtaken(waiting - {a}, failed);
      }
    }

    /** The release of a failed or overtaken start is over: lines 233-235 and 276. */
    method ReleasedStart()
      requires Valid() && Enabled(View(), ReleaseDone)
      modifies this
      ensures Valid() && View() == Step(old(View()), ReleaseDone) && events == old(events) + [ReleaseDone]
    {
      Extend(Initial(adapters, mode), events, View(), ReleaseDone);
      events := events + [ReleaseDone];
      match run {
        case RollingBack(_, failure) => run := Rejected(failure);
        case Overtaken(_, failed) =>
          startResult := Some(StartResult({}, failed));
          run := Idle;
      }
    }

    /** The rejected start is forgotten: line 217. */
    method ClearStart()
      requires Valid() && Enabled(View(), StartCleared)
      modifies this
      ensures Valid() && View() == Step(old(View()), StartCleared) && events == old(events) + [StartCleared]
    {
      Extend(Initial(adapters, mode), events, View(), StartCleared);
      events := events + [StartCleared];
      run, startInFlight := Idle, false;
    }

    /** `stop()` up to its first await: lines 328-361. */
    method Stop()
      requires Valid()
      modifies this
      ensures Valid() && View() == Step(old(View()), CallStop) && events == old(events) + [CallStop]
      ensures stopped && unsubs == {} && !stopping.Running?
    {
      RunsKeep(Initial(adapters, mode), events);
      Extend(Initial(adapters, mode), events, View(), CallStop);
      events := events + [CallStop];
      if stopped { return; }
      BeginStop();
    }

    method BeginStop()
      requires !stopped && adaptersByPlatform.Values == MapValues(adapters)
      modifies this`stopped, this`unsubs, this`stopping, this`held
      ensures View() == OnCallStop(old(View()))
    {
      stopped, unsubs := true, {};
      if inflight != {} {
        var race := if inflight * rejected != {} then OneRejected
                    else if inflight <= fulfilled then AllSettled else Open;
        stopping := Draining(inflight, race, accepted);
      } else {
        ReleaseAll(false, accepted);
      }
    }

    method ReleaseAll(timedOut: bool, before: nat)
      requires adaptersByPlatform.Values == MapValues(adapters)
      modifies this`held, this`stopping
      ensures View() == StopReleases(old(View()), timedOut, before)
    {
      var targets := adaptersByPlatform.Values;
      held := held - targets;
      stopping := Releasing(targets, timedOut, before);
    }

    method OnDrainTimer()
      requires Valid() && Enabled(View(), DrainTimer)
      modifies this
      ensures Valid() && View() == Step(old(View()), DrainTimer) && events == old(events) + [DrainTimer]
    {
      Extend(Initial(adapters, mode), events, View(), DrainTimer);
      events := events + [DrainTimer];
      if stopping.race == Open { stopping := stopping.(race := TimedOut); }
    }

    /** The race is decided: lines 350-361. */
    method ResumeStop()
      requires Valid() && Enabled(View(), StopResumes)
      modifies this
      ensures Valid() && View() == Step(old(View()), StopResumes) && events == old(events) + [StopResumes]
      ensures stopping.Releasing? && !stopping.timedOut ==>
                forall d: nat :: d < stopping.before ==> Dispatch(d) in fulfilled + rejected
    {
      Extend(Initial(adapters, mode), events, View(), StopResumes);
      events := events + [StopResumes];
      if stopping.race == OneRejected {
        stopping := Aborted;
      } else {
        ReleaseAll(stopping.race == TimedOut, stopping.before);
        DrainedBefore(adapters, mode, events, View());
      }
    }

    method OnStopRelease(a: nat, ok: bool)
      requires Valid() && Enabled(View(), StopReleaseSettles(a, ok))
      modifies this
      ensures Valid() && View() == Step(old(View()), StopReleaseSettles(a, ok))
      ensures events == old(events) + [StopReleaseSettles(a, ok)]
    {
      Extend(Initial(adapters, mode), events, View(), StopReleaseSettles(a, ok));
      events := events + [StopReleaseSettles(a, ok)];
      RecordStopRelease(a, ok);
    }

    method RecordStopRelease(a: nat, ok: bool)
      requires stopping.Releasing?
      modifies this`stopping, this`live, this`undisconnected, this`stale
      ensures View() == OnStopReleaseSettles(old(View()), a, ok)
    {
      if ok { live := if a in stale then live else live - {a}; } else { undisconnected := undisconnected + {a}; }
      stale := stale - {a};
      stopping := stopping.(waiting := stopping.waiting - {a});
    }

    method FinishStop()
      requires Valid() && Enabled(View(), StopDone)
      modifies this
      ensures Valid() && View() == Step(old(View()), StopDone) && events == old(events) + [StopDone]
      ensures Distinct(adapters) && run.Idle? ==> live <= undisconnected
      ensures !stopping.timedOut ==> forall d: nat :: d < stopping.before ==> Dispatch(d) in fulfilled + rejected
    {
      Extend(Initial(adapters, mode), events, View(), StopDone);
      events := events + [StopDone];
      stopping := Stopped(stopping.timedOut, stopping.before);
      if Distinct(adapters) && run.Idle? { StoppedLeavesNoneLive(adapters, mode, events, View()); }
      DrainedBefore(adapters, mode, events, View());
    }

    /** The handler `wireInbound` registers: line 306. */
    method OnInbound(a: nat) returns (task: Task)
      requires Valid() && Enabled(View(), Inbound(a))
      modifies this
      ensures Valid() && View() == Step(old(View()), Inbound(a))
      ensures events == old(events) + [Inbound(a)] && task in inflight
    {
      Extend(Initial(adapters, mode), events, View(), Inbound(a));
      events := events + [Inbound(a)];
      task := Dispatch(accepted);
      accepted := accepted + 1;
      inflight := inflight + {task};
    }

    /** `dispatch` reaches its handler: line 404. */
    method BeginWork(id: nat)
      requires Valid() && Enabled(View(), WorkBegins(id))
      modifies this
      ensures Valid() && View() == Step(old(View()), WorkBegins(id)) && events == old(events) + [WorkBegins(id)]
    {
      Extend(Initial(adapters, mode), events, View(), WorkBegins(id));
      events := events + [WorkBegins(id)];
      inflight := inflight + {Work(id)};
    }

    /** The handler, or a hook run for it, ended: lines 396-403. */
    method EndWork(id: nat, ending: Ending)
      requires Valid() && Enabled(View(), WorkEnds(id, ending))
      modifies this
      ensures Valid() && View() == Step(old(View()), WorkEnds(id, ending))
      ensures events == old(events) + [WorkEnds(id, ending)]
    {
      Extend(Initial(adapters, mode), events, View(), WorkEnds(id, ending));
      events := events + [WorkEnds(id, ending)];
      SettleTask(Work(id), Contained(ending));
    }

    /** The dispatch ended before any handler: lines 379-385 and 420. */
    method BlockDispatch(id: nat, ending: Ending)
      requires Valid() && Enabled(View(), DispatchBlocked(id, ending))
      modifies this
      ensures Valid() && View() == Step(old(View()), DispatchBlocked(id, ending))
      ensures events == old(events) + [DispatchBlocked(id, ending)]
    {
      Extend(Initial(adapters, mode), events, View(), DispatchBlocked(id, ending));
      events := events + [DispatchBlocked(id, ending)];
      SettleTask(Dispatch(id), Contained(ending));
    }

    /** `dispatch` resumes after its work: line 406. */
    method EndDispatch(id: nat)
      requires Valid() && Enabled(View(), DispatchEnds(id))
      modifies this
      ensures Valid() && View() == Step(old(View()), DispatchEnds(id)) && events == old(events) + [DispatchEnds(id)]
    {
      Extend(Initial(adapters, mode), events, View(), DispatchEnds(id));
      events := events + [DispatchEnds(id)];
      SettleTask(Dispatch(id), Work(id) in fulfilled);
    }

    /** A promise of the drain set settles; `Promise.all` rejects with the first and resolves with the last. */
    method SettleTask(t: Task, ok: bool)
      modifies this`fulfilled, this`rejected, this`stopping
      ensures View() == OnTaskSettles(old(View()), t, ok)
    {
      if ok { fulfilled := fulfilled + {t}; } else { rejected := rejected + {t}; }
      if stopping.Draining? && stopping.race == Open {
        if stopping.snapshot * rejected != {} {
          stopping := stopping.(race := OneRejected);
        } else if stopping.snapshot <= fulfilled {
          stopping := stopping.(race := AllSettled);
        }
      }
    }

    /** The `finally` of lines 309 and 405: the drain set shrinks. */
    method Forget(t: Task)
      requires Valid() && Enabled(View(), TaskForgotten(t))
      modifies this
      ensures Valid() && View() == Step(old(View()), TaskForgotten(t)) && events == old(events) + [TaskForgotten(t)]
    {
      Extend(Initial(adapters, mode), events, View(), TaskForgotten(t));
      events := events + [TaskForgotten(t)];
      inflight := inflight - {t};
    }
  }

  lemma {:induction false} WiredAreLive(platforms: seq<nat>, mode: Mode, events: seq<Event>, s: State)
    requires Reached(platforms, mode, events, s) && s.run.Idle? && !s.stopped && s.startResult.Some?
    ensures s.wired == s.startResult.value.connected && s.wired <= s.live <= s.wired + s.undisconnected
  {
    ReachedKeeps(platforms, mode, events, s);
    LiveWhileRunning(platforms, mode, events, s);
    StartIsAllOrNothing(platforms, mode, events, s);
  }

  /** Once `stop()` releases without its timer, every dispatch accepted before it settled. */
  lemma {:induction false} DrainedBefore(platforms: seq<nat>, mode: Mode, events: seq<Event>, s: State)
    requires Reached(platforms, mode, events, s) && (s.stop.Releasing? || s.stop.Stopped?)
    ensures !s.stop.timedOut ==> forall d: nat :: d < s.stop.before ==> Dispatch(d) in s.fulfilled + s.rejected
  {
    if !s.stop.timedOut {
      forall d: nat | d < s.stop.before
        ensures Dispatch(d) in s.fulfilled + s.rejected
      {
        StopWaitsForDispatches(platforms, mode, events, s, d);
      }
    }
  }

  /** A map built by assigning each platform in turn holds exactly the last adapter of each. */
  lemma {:induction false} LastOfEach(platforms: seq<nat>, m: map<nat, nat>)
    requires forall p :: p in m <==> p in platforms
    requires forall p :: p in m ==> m[p] < |platforms| && platforms[m[p]] == p
    requires forall p, j :: p in m && m[p] < j < |platforms| ==> platforms[j] != p
    ensures m.Values == MapValues(platforms)
  {
    forall i: nat
      ensures i in m.Values <==> i in MapValues(platforms)
    {
      if i in MapValues(platforms) {
        assert platforms[i] in platforms;
        assert m[platforms[i]] in m.Values;
      }
    }
  }

  lemma {:induction false} SortedFurther(results: seq<Settling>, i: nat)
    requires i < |results|
    ensures ConnectedOf(results[..i + 1]) == ConnectedOf(results[..i]) + (if results[i] == Connected then {i} else {})
    ensures FailedOf(results[..i + 1]) == FailedOf(results[..i]) + (if results[i] != Connected then {i} else {})
  {
  }
}
