/** The bounded set of dispatched UIDs (packages/gateway-email/src/seen-uids.ts). */
module SeenUids {
  const MAX_SIZE := 5000
  const TRIM_TO := 4000

  ghost predicate Distinct(s: seq<int>) {
    forall i, j :: 0 <= i < j < |s| ==> s[i] != s[j]
  }

  function Trimmed(s: seq<int>): seq<int> {
    if |s| > TRIM_TO then s[|s| - TRIM_TO..] else s
  }

  /** The entries in insertion order after `add`. */
  function Added(s: seq<int>, uid: int): seq<int> {
    var s' := if |s| >= MAX_SIZE then Trimmed(s) else s;
    if uid in s' then s' else s' + [uid]
  }

  /** A JavaScript `Set`, iterated oldest entry first. */
  class SeenUidSet {
    var entries: seq<int>

    constructor ()
      ensures entries == []
    {
      entries := [];
    }

    method Has(uid: int) returns (r: bool)
      ensures r <==> uid in entries
    {
      r := uid in entries;
    }

    method Add(uid: int)
      requires Distinct(entries)
      modifies this
      ensures entries == Added(old(entries), uid) && Distinct(entries)
    {
      if |entries| >= MAX_SIZE { Trim(); }
      if uid !in entries { entries := entries + [uid]; }
    }

    method Trim()
      modifies this
      ensures entries == Trimmed(old(entries))
    {
      var toDrop := |entries| - TRIM_TO;
      if toDrop <= 0 { return; }
      var i := 0;
      while i < toDrop
        invariant 0 <= i <= toDrop && entries == old(entries)[i..]
      {
        entries := entries[1..];
        i := i + 1;
      }
    }
  }
}

/**
 Draining one IMAP connection: overlapping drains share one queue, and a message is flagged only
 after its dispatch (packages/gateway-email/src/adapter.ts). A handler stays subscribed.
 */
module Email {
  import opened Options
  import opened SeenUids

  datatype Job = Dispatch(uid: int) | Flush

  datatype Running = Nothing | Dispatching(uid: int) | Flushing(uids: set<int>)

  datatype State = State(
    queue: seq<Job>,
    running: Running,
    seen: seq<int>,
    pendingSeen: set<int>,
    // the world: UIDs fetched, dispatched in order, whose dispatch finished, asked to be flagged (in all
    // and batch by batch), flagged
    fetched: set<int>,
    dispatched: seq<int>,
    finished: set<int>,
    requested: set<int>,
    batches: seq<set<int>>,
    flagged: set<int>
  )

  datatype Event = Drain(uids: seq<int>) | NextJob | DispatchEnds | FlushSettles(ok: bool)

  const INITIAL := State([], Nothing, [], {}, {}, [], {}, {}, [], {})

  predicate Enabled(s: State, e: Event) {
    match e
    case Drain(_) => true
    case NextJob => s.running.Nothing? && s.queue != []
    case DispatchEnds => s.running.Dispatching?
    case FlushSettles(_) => s.running.Flushing?
  }

  // ---- specification of the steps ----

  function Dispatches(uids: seq<int>): seq<Job> {
    seq(|uids|, i requires 0 <= i < |uids| => Dispatch(uids[i]))
  }

  function Elements(uids: seq<int>): set<int> {
    set u | u in uids
  }

  function OnDrain(s: State, uids: seq<int>): State {
    s.(queue := s.queue + Dispatches(uids) + [Flush], fetched := s.fetched + Elements(uids))
  }

  function OnNextJob(s: State): State
    requires s.queue != []
  {
    var s' := s.(queue := s.queue[1..]);
    match s.queue[0]
    case Dispatch(uid) =>
      if uid in s.seen then s'
      else s'.(seen := Added(s.seen, uid), running := Dispatching(uid), dispatched := s.dispatched + [uid])
    case Flush =>
      if s.pendingSeen == {} then s'
      else s'.(running := Flushing(s.pendingSeen), pendingSeen := {},
                 requested := s.requested + s.pendingSeen, batches := s.batches + [s.pendingSeen])
  }

  function Step(s: State, e: Event): State
    requires Enabled(s, e)
  {
    match e
    case Drain(uids) => OnDrain(s, uids)
    case NextJob => OnNextJob(s)
    case DispatchEnds =>
      s.(running := Nothing, pendingSeen := s.pendingSeen + {s.running.uid}, finished := s.finished + {s.running.uid})
    case FlushSettles(ok) =>
      s.(running := Nothing, flagged := if ok then s.flagged + s.running.uids else s.flagged)
  }

  ghost predicate Possible(s: State, events: seq<Event>)
    decreases |events|
  {
    events == [] || (Enabled(s, events[0]) && Possible(Step(s, events[0]), events[1..]))
  }

  ghost function After(s: State, events: seq<Event>): State
    requires Possible(s, events)
    decreases |events|
  {
    if events == [] then s else After(Step(s, events[0]), events[1..])
  }

  lemma {:induction false} Extend(s0: State, es: seq<Event>, s: State, e: Event)
    requires Possible(s0, es) && After(s0, es) == s && Enabled(s, e)
    ensures Possible(s0, es + [e]) && After(s0, es + [e]) == Step(s, e)
    decreases |es|
  {
    if es == [] {
      assert (es + [e])[1..] == [] && (es + [e])[0] == e;
    } else {
      Extend(Step(s0, es[0]), es[1..], s, e);
      assert (es + [e])[0] == es[0] && (es + [e])[1..] == es[1..] + [e];
    }
  }

  // ---- what every step keeps ----

  /** The set holds the newest dispatches, all different: every one so far, or more than `TRIM_TO` of them. */
  ghost predicate SeenIsSuffix(s: State) {
    && |s.seen| <= MAX_SIZE && |s.seen| <= |s.dispatched|
    && s.seen == s.dispatched[|s.dispatched| - |s.seen|..]
    && Distinct(s.seen)
    && (|s.seen| == |s.dispatched| || |s.seen| > TRIM_TO)
  }

  /** Each dispatch was of a UID the set did not hold then. */
  ghost predicate RepeatsFarApart(dispatched: seq<int>) {
    forall i, j :: 0 <= i < j < |dispatched| && dispatched[i] == dispatched[j] ==> FarApart(dispatched, i, j)
  }

  /** Between the two, more than `TRIM_TO` UIDs were dispatched, all different from each other and from this one. */
  ghost predicate FarApart(dispatched: seq<int>, i: int, j: int)
    requires 0 <= i < j < |dispatched|
  {
    exists k :: i < k && k + TRIM_TO < j && Distinct(dispatched[k..j]) && dispatched[j] !in dispatched[k..j]
  }

  ghost predicate Bookkept(s: State) {
    && s.finished == s.requested + s.pendingSeen
    && s.flagged <= s.requested
    && (s.running.Flushing? ==> s.running.uids <= s.requested && s.pendingSeen == {})
    && (forall u :: u in s.dispatched <==> u in s.finished || s.running == Dispatching(u))
    && (forall u :: u in s.fetched <==> u in s.dispatched || Dispatch(u) in s.queue)
  }

  /** Whatever is queued or still to be flagged has a flush behind it. */
  ghost predicate FlushFollows(s: State) {
    && (s.queue != [] ==> s.queue[|s.queue| - 1] == Flush)
    && (s.queue == [] ==> !s.running.Dispatching? && s.pendingSeen == {})
  }

  ghost predicate Inv(s: State) {
    SeenIsSuffix(s) && RepeatsFarApart(s.dispatched) && Bookkept(s) && FlushFollows(s)
  }

  lemma {:induction false} NewDispatch(s: State, uid: int)
    requires SeenIsSuffix(s) && RepeatsFarApart(s.dispatched) && uid !in s.seen
    ensures RepeatsFarApart(s.dispatched + [uid])
  {
    var d, n := s.dispatched + [uid], |s.dispatched|;
    var k := n - |s.seen|;
    assert d[k..n] == s.seen;
    forall i, j | 0 <= i < j < |d| && d[i] == d[j]
      ensures FarApart(d, i, j)
    {
      if j < n {
        assert s.dispatched[i] == s.dispatched[j];
        var m :| i < m && m + TRIM_TO < j && Distinct(s.dispatched[m..j]) && s.dispatched[j] !in s.dispatched[m..j];
        assert d[m..j] == s.dispatched[m..j];
      } else {
        assert d[j] !in d[k..j];
        assert forall m :: k <= m < n ==> d[m] in d[k..j];
      }
    }
  }

  lemma {:induction false} SuffixGrows(s: State, uid: int)
    requires SeenIsSuffix(s) && uid !in s.seen
    ensures SeenIsSuffix(s.(seen := Added(s.seen, uid), dispatched := s.dispatched + [uid]))
  {
    var kept := if |s.seen| >= MAX_SIZE then Trimmed(s.seen) else s.seen;
    KeptIsSuffix(s, kept);
    SuffixPush(s.dispatched, kept, uid);
    assert Added(s.seen, uid) == kept + [uid];
  }

  lemma {:induction false} KeptIsSuffix(s: State, kept: seq<int>)
    requires SeenIsSuffix(s) && kept == (if |s.seen| >= MAX_SIZE then Trimmed(s.seen) else s.seen)
    ensures |kept| < MAX_SIZE && |kept| <= |s.dispatched| && kept == s.dispatched[|s.dispatched| - |kept|..]
    ensures Distinct(kept) && (|kept| == |s.dispatched| || |kept| >= TRIM_TO)
    ensures forall u :: u in kept ==> u in s.seen
  {
    var cut := |s.seen| - |kept|;
    assert kept == s.seen[cut..] && forall i :: 0 <= i < |kept| ==> kept[i] == s.seen[cut + i];
    assert s.seen[cut..] == s.dispatched[|s.dispatched| - |s.seen|..][cut..];
  }

  lemma {:induction false} SuffixPush(d: seq<int>, kept: seq<int>, uid: int)
    requires |kept| <= |d| && kept == d[|d| - |kept|..] && Distinct(kept) && uid !in kept
    ensures kept + [uid] == (d + [uid])[|d| - |kept|..] && Distinct(kept + [uid])
  {
  }

  lemma {:induction false} DrainKeeps(s: State, uids: seq<int>)
    requires Inv(s)
    ensures Inv(OnDrain(s, uids))
  {
    var t := OnDrain(s, uids);
    forall u
      ensures Dispatch(u) in t.queue <==> Dispatch(u) in s.queue || u in uids
    {
      if u in uids {
        var i :| 0 <= i < |uids| && uids[i] == u;
        assert Dispatches(uids)[i] == Dispatch(u);
      }
    }
  }

  lemma {:induction false} NextKeeps(s: State)
    requires Inv(s) && Enabled(s, NextJob)
    ensures Inv(OnNextJob(s))
  {
    match s.queue[0] {
      case Dispatch(uid) => if uid in s.seen { SkipKeeps(s, uid); } else { DispatchKeeps(s, uid); }
      case Flush => FlushKeeps(s);
    }
  }

  lemma {:induction false} HeadTaken(queue: seq<Job>)
    requires queue != []
    ensures forall u :: Dispatch(u) in queue <==> queue[0] == Dispatch(u) || Dispatch(u) in queue[1..]
  {
    assert forall j :: j in queue <==> j == queue[0] || j in queue[1..];
  }

  lemma {:induction false} SkipKeeps(s: State, uid: int)
    requires Inv(s) && Enabled(s, NextJob) && s.queue[0] == Dispatch(uid) && uid in s.seen
    ensures Inv(OnNextJob(s))
  {
    HeadTaken(s.queue);
    assert uid in s.dispatched;
  }

  lemma {:induction false} DispatchKeeps(s: State, uid: int)
    requires Inv(s) && Enabled(s, NextJob) && s.queue[0] == Dispatch(uid) && uid !in s.seen
    ensures Inv(OnNextJob(s))
  {
    var t := OnNextJob(s);
    NewDispatch(s, uid);
    SuffixGrows(s, uid);
    assert SeenIsSuffix(t);
    DispatchBookkept(s, uid);
  }

  lemma {:induction false} DispatchBookkept(s: State, uid: int)
    requires Bookkept(s) && FlushFollows(s) && Enabled(s, NextJob) && s.queue[0] == Dispatch(uid) && uid !in s.seen
    ensures Bookkept(OnNextJob(s)) && FlushFollows(OnNextJob(s))
  {
    HeadTaken(s.queue);
    assert forall u :: u in OnNextJob(s).dispatched <==> u in s.dispatched || u == uid;
  }

  lemma {:induction false} FlushKeeps(s: State)
    requires Inv(s) && Enabled(s, NextJob) && s.queue[0] == Flush
    ensures Inv(OnNextJob(s))
  {
    HeadTaken(s.queue);
  }

  lemma {:induction false} StepKeeps(s: State, e: Event)
    requires Inv(s) && Enabled(s, e)
    ensures Inv(Step(s, e))
  {
    match e {
      case Drain(uids) => DrainKeeps(s, uids);
      case NextJob => NextKeeps(s);
      case _ =>
    }
  }

  lemma {:induction false} RunsKeep(s: State, events: seq<Event>)
    requires Inv(s) && Possible(s, events)
    ensures Inv(After(s, events))
    decreases |events|
  {
    if events != [] {
      StepKeeps(s, events[0]);
      RunsKeep(Step(s, events[0]), events[1..]);
    }
  }

  // ---- the promises, however drains overlap ----

  ghost predicate Reached(events: seq<Event>, s: State) {
    Possible(INITIAL, events) && s == After(INITIAL, events)
  }

  /** Two dispatches of one UID are separated by more than 4000 distinct others; the set never passes 5000. */
  lemma {:induction false} RepeatsAreRare(events: seq<Event>, s: State, i: nat, j: nat)
    requires Reached(events, s) && i < j < |s.dispatched| && s.dispatched[i] == s.dispatched[j]
    ensures |s.seen| <= MAX_SIZE
    ensures |Elements(s.dispatched[i + 1..j]) - {s.dispatched[j]}| > TRIM_TO
  {
    RunsKeep(INITIAL, events);
    assert FarApart(s.dispatched, i, j);
    FarApartCount(s.dispatched, i, j);
  }

  lemma {:induction false} FarApartCount(d: seq<int>, i: nat, j: nat)
    requires i < j < |d| && FarApart(d, i, j)
    ensures |Elements(d[i + 1..j]) - {d[j]}| > TRIM_TO
  {
    var k :| i < k && k + TRIM_TO < j && Distinct(d[k..j]) && d[j] !in d[k..j];
    CountDistinct(d[k..j]);
    assert d[i + 1..j] == d[i + 1..k] + d[k..j];
    SubsetCount(Elements(d[k..j]), Elements(d[i + 1..j]) - {d[j]});
  }

  lemma {:induction false} CountDistinct(s: seq<int>)
    requires Distinct(s)
    ensures |Elements(s)| == |s|
  {
    if s != [] {
      CountDistinct(s[1..]);
      assert Elements(s) == {s[0]} + Elements(s[1..]);
    }
  }

  lemma {:induction false} SubsetCount(a: set<int>, b: set<int>)
    requires a <= b
    ensures |a| <= |b|
  {
    assert b == a + (b - a);
  }

  /** A UID is asked to be flagged, and flagged, only after its dispatch finished; none that finished is forgotten. */
  lemma {:induction false} FlaggedAfterDispatch(events: seq<Event>, s: State)
    requires Reached(events, s)
    ensures s.flagged <= s.requested <= s.finished
    ensures s.finished == s.requested + s.pendingSeen
    ensures forall u :: u in s.finished ==> u in s.dispatched
  {
    RunsKeep(INITIAL, events);
  }

  /** Once the queue is empty, every UID any drain fetched was dispatched and asked to be flagged. */
  lemma {:induction false} RestLosesNothing(events: seq<Event>, s: State)
    requires Reached(events, s) && s.queue == [] && s.running.Nothing?
    ensures s.fetched == s.finished == s.requested
    ensures s.fetched == Elements(s.dispatched)
  {
    RunsKeep(INITIAL, events);
    AtRest(s);
  }

  lemma {:induction false} AtRest(s: State)
    requires Bookkept(s) && FlushFollows(s) && s.queue == [] && s.running.Nothing?
    ensures s.fetched == s.finished == s.requested
    ensures s.fetched == Elements(s.dispatched)
  {
    assert s.finished == s.requested;
    forall u
      ensures u in s.fetched <==> u in s.finished
      ensures u in s.fetched <==> u in Elements(s.dispatched)
    {
      assert u in s.dispatched <==> u in s.finished;
    }
  }

  // ---- a flush that failed ----

  /** A fetched UID is dispatched if and only if the set lost it: at least `|seen|` dispatches ago. */
  lemma {:induction false} DispatchedIfForgotten(events: seq<Event>, s: State, u: int, i: nat)
    requires Reached(events, s) && Enabled(s, NextJob) && s.queue[0] == Dispatch(u)
    requires i < |s.dispatched| && s.dispatched[i] == u && u !in s.dispatched[i + 1..]
    ensures u in s.seen <==> |s.dispatched| - i <= |s.seen|
    ensures OnNextJob(s).dispatched == if |s.dispatched| - i > |s.seen| then s.dispatched + [u] else s.dispatched
    ensures |s.dispatched| - i > |s.seen| ==> |s.dispatched[i + 1..]| > TRIM_TO
  {
    RunsKeep(INITIAL, events);
    var from := |s.dispatched| - |s.seen|;
    assert s.seen == s.dispatched[from..];
    if from <= i {
      assert s.seen[i - from] == u;
    } else {
      assert s.seen == s.dispatched[i + 1..][from - i - 1..];
    }
  }

  /** At some step of the run `u` comes up while the set does not hold it. */
  ghost predicate TakenUnseen(s: State, events: seq<Event>, u: int)
    requires Possible(s, events)
    decreases |events|
  {
    events != [] &&
    ((events[0].NextJob? && s.queue[0] == Dispatch(u) && u !in s.seen)
     || TakenUnseen(Step(s, events[0]), events[1..], u))
  }

  ghost predicate Asked(batches: seq<set<int>>, u: int) {
    exists i :: 0 <= i < |batches| && u in batches[i]
  }

  /** What happened to `u` after the first `d` dispatches and `b` batches. */
  ghost predicate Followed(s: State, u: int, d: nat, b: nat) {
    && d <= |s.dispatched| && b <= |s.batches|
    && (u in s.dispatched[d..] <==> Asked(s.batches[b..], u) || u in s.pendingSeen || s.running == Dispatching(u))
  }

  lemma {:induction false} BatchAsked(batches: seq<set<int>>, batch: set<int>, u: int)
    ensures Asked(batches + [batch], u) <==> Asked(batches, u) || u in batch
  {
    var all := batches + [batch];
    if Asked(batches, u) {
      var i :| 0 <= i < |batches| && u in batches[i];
      assert u in all[i];
    }
    assert u in batch ==> u in all[|batches|];
  }

  lemma {:induction false} StepFollows(s: State, e: Event, u: int, d: nat, b: nat)
    requires Followed(s, u, d, b) && Enabled(s, e)
    ensures Followed(Step(s, e), u, d, b)
    ensures u in Step(s, e).dispatched[d..] <==>
              u in s.dispatched[d..] || (e.NextJob? && s.queue[0] == Dispatch(u) && u !in s.seen)
  {
    var t := Step(s, e);
    if e.NextJob? && s.queue[0].Flush? && s.pendingSeen != {} {
      assert t.batches[b..] == s.batches[b..] + [s.pendingSeen];
      BatchAsked(s.batches[b..], s.pendingSeen, u);
    } else if e.NextJob? && s.queue[0].Dispatch? && s.queue[0].uid !in s.seen {
      assert t.dispatched[d..] == s.dispatched[d..] + [s.queue[0].uid];
    }
  }

  lemma {:induction false} RunsFollow(s: State, events: seq<Event>, u: int, d: nat, b: nat)
    requires Followed(s, u, d, b) && Possible(s, events)
    ensures Followed(After(s, events), u, d, b)
    ensures u in After(s, events).dispatched[d..] <==> u in s.dispatched[d..] || TakenUnseen(s, events, u)
    decreases |events|
  {
    if events != [] {
      StepFollows(s, events[0], u, d, b);
      RunsFollow(Step(s, events[0]), events[1..], u, d, b);
    }
  }

  /**
   After a flush of `u` failed, on every run to rest, however often it is fetched: `u` is asked to be
   flagged again if and only if it was dispatched again, and that if and only if it came up after the
   set had lost it.
   */
  lemma {:induction false} RetriedOnlyIfForgotten(past: seq<Event>, s: State, events: seq<Event>, t: State, u: int)
    requires Reached(past, s) && s.running.Flushing? && u in s.running.uids
    requires var s1 := Step(s, FlushSettles(false)); Possible(s1, events) && t == After(s1, events)
    requires t.queue == [] && t.running.Nothing?
    ensures |s.dispatched| <= |t.dispatched| && |s.batches| <= |t.batches|
    ensures Asked(t.batches[|s.batches|..], u) <==> u in t.dispatched[|s.dispatched|..]
    ensures u in t.dispatched[|s.dispatched|..] <==> TakenUnseen(Step(s, FlushSettles(false)), events, u)
  {
    RunsKeep(INITIAL, past);
    StepKeeps(s, FlushSettles(false));
    RunsKeep(Step(s, FlushSettles(false)), events);
    RetriedFrom(Step(s, FlushSettles(false)), events, t, u);
  }

  lemma {:induction false} RetriedFrom(s: State, events: seq<Event>, t: State, u: int)
    requires s.running.Nothing? && u !in s.pendingSeen && Possible(s, events) && t == After(s, events)
    requires FlushFollows(t) && t.queue == [] && t.running.Nothing?
    ensures |s.dispatched| <= |t.dispatched| && |s.batches| <= |t.batches|
    ensures Asked(t.batches[|s.batches|..], u) <==> u in t.dispatched[|s.dispatched|..]
    ensures u in t.dispatched[|s.dispatched|..] <==> TakenUnseen(s, events, u)
  {
    var d, b := |s.dispatched|, |s.batches|;
    assert s.dispatched[d..] == [] && s.batches[b..] == [];
    RunsFollow(s, events, u, d, b);
  }

  /** Fetched, dispatched, and its flush failed. */
  function Unflagged(u: int): State {
    State([], Nothing, [u], {}, {u}, [u], {u}, {u}, [{u}], {})
  }

  lemma {:induction false} FlushFails(u: int) returns (events: seq<Event>)
    ensures Reached(events, Unflagged(u))
  {
    var s1 := Step(INITIAL, Drain([u]));
    assert s1 == INITIAL.(queue := [Dispatch(u), Flush], fetched := {u}) by {
      assert Dispatches([u]) == [Dispatch(u)] && Elements([u]) == {u};
    }
    var s2 := Step(s1, NextJob);
    assert s2 == INITIAL.(queue := [Flush], fetched := {u}, seen := [u], dispatched := [u], running := Dispatching(u));
    var s3 := Step(s2, DispatchEnds);
    var s4 := Step(s3, NextJob);
    Extend(INITIAL, [], INITIAL, Drain([u]));
    Extend(INITIAL, [] + [Drain([u])], s1, NextJob);
    Extend(INITIAL, [] + [Drain([u])] + [NextJob], s2, DispatchEnds);
    Extend(INITIAL, [] + [Drain([u])] + [NextJob] + [DispatchEnds], s3, NextJob);
    var es := [] + [Drain([u])] + [NextJob] + [DispatchEnds] + [NextJob];
    Extend(INITIAL, es, s4, FlushSettles(false));
    events := es + [FlushSettles(false)];
    assert s4 == Unflagged(u).(running := Flushing({u}));
  }

  /** A UID whose flush failed comes back from the next fetch, and is neither dispatched nor flagged. */
  lemma {:induction false} FetchedAgainForNothing(u: int) returns (events: seq<Event>, s: State)
    ensures Reached(events, s) && |events| >= 3 && events[|events| - 3..] == [Drain([u]), NextJob, NextJob]
    ensures s == Unflagged(u)
  {
    var es := FlushFails(u);
    var s0 := Unflagged(u);
    var s1 := Step(s0, Drain([u]));
    assert s1 == s0.(queue := [Dispatch(u), Flush]) by {
      assert Dispatches([u]) == [Dispatch(u)] && Elements([u]) == {u};
    }
    var s2 := Step(s1, NextJob);
    assert s2 == s0.(queue := [Flush]);
    s := Step(s2, NextJob);
    Extend(INITIAL, es, s0, Drain([u]));
    Extend(INITIAL, es + [Drain([u])], s1, NextJob);
    Extend(INITIAL, es + [Drain([u])] + [NextJob], s2, NextJob);
    events := es + [Drain([u])] + [NextJob] + [NextJob];
  }

  // ---- the class ----

  class EmailAdapter {
    const seenUids: SeenUidSet
    var dispatchQueue: seq<Job>
    var running: Running
    var pendingSeen: set<int>
    ghost var fetched: set<int>
    ghost var dispatched: seq<int>
    ghost var finished: set<int>
    ghost var requested: set<int>
    ghost var batches: seq<set<int>>
    ghost var flagged: set<int>
    ghost var events: seq<Event>  // everything that happened to this object

    ghost function View(): State
      reads this, seenUids
    {
      State(dispatchQueue, running, seenUids.entries, pendingSeen, fetched, dispatched, finished, requested,
            batches, flagged)
    }

    ghost predicate Valid()
      reads this, seenUids
    {
      Reached(events, View()) && Distinct(seenUids.entries)
    }

    constructor ()
      ensures Valid() && View() == INITIAL && fresh(seenUids)
    {
      seenUids := new SeenUidSet();
      dispatchQueue, running, pendingSeen := [], Nothing, {};
      fetched, dispatched, finished, requested, batches, flagged, events := {}, [], {}, {}, [], {}, [];
    }

    /** `_drainUnseen` once the fetch answered (lines 261-267). */
    method OnFetched(uids: seq<int>)
      requires Valid()
      modifies this
      ensures Valid() && View() == Step(old(View()), Drain(uids)) && events == old(events) + [Drain(uids)]
    {
      Extend(INITIAL, events, View(), Drain(uids));
      events := events + [Drain(uids)];
      QueueDispatches(uids);
      dispatchQueue := dispatchQueue + [Flush];
      fetched := fetched + Elements(uids);
    }

    method QueueDispatches(uids: seq<int>)
      modifies this`dispatchQueue
      ensures dispatchQueue == old(dispatchQueue) + Dispatches(uids)
    {
      for i := 0 to |uids|
        invariant dispatchQueue == old(dispatchQueue) + Dispatches(uids)[..i]
      {
        assert Dispatches(uids)[..i + 1] == Dispatches(uids)[..i] + [Dispatch(uids[i])];
        dispatchQueue := dispatchQueue + [Dispatch(uids[i])];
      }
      assert Dispatches(uids)[..|uids|] == Dispatches(uids);
    }

    /** The head of the queue up to its await: `_dispatchInboundInner` or `_flushSeen` (lines 292-296, 316-320). */
    method RunNext()
      requires Valid() && Enabled(View(), NextJob)
      modifies this, seenUids
      ensures Valid() && View() == Step(old(View()), NextJob) && events == old(events) + [NextJob]
    {
      Extend(INITIAL, events, View(), NextJob);
      events := events + [NextJob];
      var job := dispatchQueue[0];
      dispatchQueue := dispatchQueue[1..];
      match job {
        case Dispatch(uid) =>
          var known := seenUids.Has(uid);
          if known { return; }
          seenUids.Add(uid);
          running := Dispatching(uid);
          dispatched := dispatched + [uid];
        case Flush =>
          if pendingSeen == {} { return; }
          running := Flushing(pendingSeen);
          requested, batches := requested + pendingSeen, batches + [pendingSeen];
          pendingSeen := {};
      }
    }

    /** The `finally` of line 297. */
    method OnDispatchEnd()
      requires Valid() && Enabled(View(), DispatchEnds)
      modifies this
      ensures Valid() && View() == Step(old(View()), DispatchEnds) && events == old(events) + [DispatchEnds]
    {
      Extend(INITIAL, events, View(), DispatchEnds);
      events := events + [DispatchEnds];
      pendingSeen := pendingSeen + {running.uid};
      finished := finished + {running.uid};
      running := Nothing;
    }

    method OnMarked(ok: bool)
      requires Valid() && Enabled(View(), FlushSettles(ok))
      modifies this
      ensures Valid() && View() == Step(old(View()), FlushSettles(ok)) && events == old(events) + [FlushSettles(ok)]
      ensures dispatchQueue == [] ==> fetched == requested == Elements(dispatched)
    {
      Extend(INITIAL, events, View(), FlushSettles(ok));
      events := events + [FlushSettles(ok)];
      if ok { flagged := flagged + running.uids; }
      running := Nothing;
      if dispatchQueue == [] { RestLosesNothing(events, View()); }
    }
  }
}
