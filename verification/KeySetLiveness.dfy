/**
 Every lookup of the published key set is answered, once and for good
 (packages/gateway-teams/src/published-key-set.ts).
 */
module KeySetLiveness {
  import opened Options
  import opened KeySet

  /** Every number handed out is waiting or answered, not both. */
  ghost predicate Accounted(s: State) {
    s.waiting.Keys !! s.answers.Keys && forall l: nat :: l < s.asked <==> l in s.waiting || l in s.answers
  }

  lemma {:induction false} StepAccounts(s: State, e: Event)
    requires Accounted(s) && Enabled(s, e)
    ensures Accounted(Step(s, e))
    ensures forall l :: l in s.answers ==> l in Step(s, e).answers && Step(s, e).answers[l] == s.answers[l]
  {
    if e.Ask? {
      assert s.asked !in s.waiting && s.asked !in s.answers;
    }
  }

  lemma {:induction false} RunsAccount(s: State, events: seq<Event>)
    requires Accounted(s) && Possible(s, events)
    ensures Accounted(After(s, events))
    ensures forall l :: l in s.answers ==> l in After(s, events).answers && After(s, events).answers[l] == s.answers[l]
    decreases |events|
  {
    if events != [] {
      StepAccounts(s, events[0]);
      RunsAccount(Step(s, events[0]), events[1..]);
    }
  }

  /** On every run each lookup is waiting or answered, and an answer given never changes. */
  lemma {:induction false} AnsweredOnce(timing: Timing, events: seq<Event>, s: State, more: seq<Event>, l: nat)
    requires Reached(timing, events, s) && Possible(s, more)
    ensures l < s.asked <==> (l in s.waiting) != (l in s.answers)
    ensures l in s.answers ==> l in After(s, more).answers && After(s, more).answers[l] == s.answers[l]
  {
    assert Accounted(Initial(timing));
    RunsAccount(Initial(timing), events);
    RunsAccount(s, more);
  }

  /** Nothing is in flight and the last read ended at least the interval ago. */
  predicate MayStart(s: State) {
    |s.history| > 0 ==>
      Ended(s, |s.history| - 1) && s.clock >= s.history[|s.history| - 1].ended.value + s.timing.interval
  }

  /** The newest read while it is in flight. */
  function InFlight(s: State): Option<nat> {
    if |s.history| > 0 && s.history[|s.history| - 1].ended.None? then Some(|s.history| - 1) else None
  }

  /** When the machine starts a read, said of its history. */
  lemma {:induction false} StartsExactly(s: State)
    requires ReadsApart(s) && ReadsOff(s)
    ensures CurrentRead(s).history == (if MayStart(s) then s.history + [Read(s.clock, None, None)] else s.history)
    ensures CurrentRead(s).reading == InFlight(CurrentRead(s))
  {
    if s.history != [] && Ended(s, |s.history| - 1) {
      assert LatestEnd(s.history) == s.history[|s.history| - 1].ended;
    }
  }

  /** A key the copy lacks is not answered: the lookup waits for the read in flight, started now if one may be. */
  lemma {:induction false} MissingWaits(timing: Timing, events: seq<Event>, s: State, kid: Kid)
    requires Reached(timing, events, s) && (s.held.None? || kid !in s.held.value)
    ensures var t := Step(s, Ask(kid));
            && t.answers == s.answers && t.waiting.Keys == s.waiting.Keys + {s.asked}
            && t.waiting[s.asked] == Lookup(kid, s.clock, InFlight(t))
            && t.history == (if MayStart(s) then s.history + [Read(s.clock, None, None)] else s.history)
  {
    RunsKeep(Initial(timing), events);
    StartsExactly(s);
    AskWaits(s, kid, CurrentRead(s));
  }

  lemma {:induction false} AskWaits(s: State, kid: Kid, c: State)
    requires c == CurrentRead(s) && (s.held.None? || kid !in s.held.value)
    ensures OnAsk(s, kid)
            == c.(asked := s.asked + 1, waiting := s.waiting[s.asked := Lookup(kid, s.clock, c.reading)])
  {
  }

  /** Resumed, the lookup has its answer, read off a fresh read. */
  lemma {:induction false} ResumedIsAnswered(timing: Timing, events: seq<Event>, s: State, l: nat) returns (i: nat)
    requires Reached(timing, events, s) && Enabled(s, Resume(l))
    ensures l in Step(s, Resume(l)).answers && l !in Step(s, Resume(l)).waiting
    ensures Fresh(s, i, s.waiting[l].asked) && FromRead(s, i, s.waiting[l].kid, Step(s, Resume(l)).answers[l])
  {
    i := WaitedAnswers(timing, events, s, l);
  }

  // ---- a wait always ends ----

  lemma {:induction false} First(s: State, e: Event, more: seq<Event>)
    requires Enabled(s, e) && Possible(Step(s, e), more)
    ensures Possible(s, [e] + more) && After(s, [e] + more) == After(Step(s, e), more)
  {
    assert ([e] + more)[0] == e && ([e] + more)[1..] == more;
  }

  /** The events that answer lookup `l`: at most the reply, the end of its read and its own turn. */
  ghost predicate Answers(s: State, more: seq<Event>, l: nat) {
    && Possible(s, more) && l in After(s, more).answers
    && (forall e :: e in more ==> e.ReplyArrives? || e.ReadEnds? || e == Resume(l))
  }

  lemma {:induction false} AnswersFirst(s: State, e: Event, more: seq<Event>, l: nat)
    requires Enabled(s, e) && (e.ReplyArrives? || e.ReadEnds? || e == Resume(l)) && Answers(Step(s, e), more, l)
    ensures Answers(s, [e] + more, l)
  {
    First(s, e, more);
  }

  lemma {:induction false} EndedAnswers(s: State, l: nat)
    requires Enabled(s, Resume(l))
    ensures Answers(s, [Resume(l)] + [], l)
  {
    assert Answers(Step(s, Resume(l)), [], l);
    AnswersFirst(s, Resume(l), [], l);
  }

  lemma {:induction false} DoneAnswers(s: State, l: nat, i: nat) returns (more: seq<Event>)
    requires l in s.waiting && s.waiting[l].on == Some(i) && Enabled(s, ReadEnds(i))
    ensures Answers(s, more, l)
  {
    EndedAnswers(Step(s, ReadEnds(i)), l);
    more := [ReadEnds(i)] + ([Resume(l)] + []);
    AnswersFirst(s, ReadEnds(i), [Resume(l)] + [], l);
  }

  /** From every reached state a waiting lookup is answered once its read replied, with whatever, and ended. */
  lemma {:induction false} EveryWaitEnds(timing: Timing, events: seq<Event>, s: State, l: nat, reply: Reply)
    returns (more: seq<Event>)
    requires Reached(timing, events, s) && l in s.waiting && (reply.Good? ==> reply.keys != map[])
    ensures Answers(s, more, l)
  {
    RunsKeep(Initial(timing), events);
    assert WaitIsRecent(s, s.waiting[l]);
    if Enabled(s, Resume(l)) {
      EndedAnswers(s, l);
      more := [Resume(l)] + [];
    } else {
      var i := s.waiting[l].on.value;
      if s.history[i].done.Some? {
        more := DoneAnswers(s, l, i);
      } else {
        var e := ReplyArrives(i, reply);
        var rest := DoneAnswers(Step(s, e), l, i);
        AnswersFirst(s, e, rest, l);
        more := [e] + rest;
      }
    }
  }
}
