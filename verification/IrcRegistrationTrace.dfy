/**
 What the IRC handshake writes and answers, said of the server's lines alone
 (packages/gateway-irc/src/registration.ts).
 */
module IrcRegistrationTrace {
  import opened Utf16
  import opened Options
  import opened IrcLine
  import opened IrcRegistration

  // ---- names ----

  /** A capability offered with a value is known by its name. */
  lemma {:induction false} CapNameIs(name: Text, value: Text)
    requires EQUALS !in name
    ensures CapName(name) == name && CapName(name + [EQUALS] + value) == name
  {
    IndexAfter(name, EQUALS, value);
    IndexNone(name, EQUALS);
  }

  /** One letter to a server with the `rfc1459` mapping: the ASCII cases, and four more pairs. */
  predicate SameLetter(u: CodeUnit, v: CodeUnit) {
    u == v || UpperOf(u, v) || UpperOf(v, u)
  }

  predicate UpperOf(u: CodeUnit, v: CodeUnit) {
    || ('A' as int <= u <= 'Z' as int && v == u + 32)
    || (u == '[' as int && v == '{' as int) || (u == ']' as int && v == '}' as int)
    || (u == '\\' as int && v == '|' as int) || (u == '~' as int && v == '^' as int)
  }

  /** Two channel names are one to the handshake exactly when they are letter by letter. */
  lemma {:induction false} SameName(a: Text, b: Text)
    ensures IrcLower(a) == IrcLower(b) <==> |a| == |b| && forall i :: 0 <= i < |a| ==> SameLetter(a[i], b[i])
  {
    if IrcLower(a) == IrcLower(b) {
      assert |IrcLower(a)| == |a| && |IrcLower(b)| == |b|;
      forall i | 0 <= i < |a|
        ensures SameLetter(a[i], b[i])
      {
        assert IrcLower(a)[i] == LowerUnit(a[i]) && IrcLower(b)[i] == LowerUnit(b[i]);
      }
    }
  }

  // ---- what the lines so far say ----

  predicate IsCap(line: Line, subcommand: Text) {
    line.command == CAP && ParamOr(line, 1, []) == subcommand
  }

  /** The list of capabilities a CAP line carries: its last parameter. */
  function CapList(line: Line): Text {
    LastOrEmpty(CapParams(line))
  }

  /** A `CAP LS` line that says more lines follow. */
  predicate MoreFollow(line: Line) {
    |line.params| > 3
  }

  function Offers(lines: seq<Line>): seq<Text> {
    if lines == [] then []
    else
      var last := lines[|lines| - 1];
      Offers(lines[..|lines| - 1]) + (if IsCap(last, LS) then CapNames(CapList(last)) else [])
  }

  /** How often the nick was refused before a 001. */
  function Retries(lines: seq<Line>): nat {
    if lines == [] then 0
    else
      var init, last := lines[..|lines| - 1], lines[|lines| - 1];
      Retries(init) + (if last.command == NICK_IN_USE && !Saw(init, WELCOME) then 1 else 0)
  }

  /** The nick: what the latest 001 named, else the configured one with an underscore for each refusal. */
  function NickAfter(c: Config, lines: seq<Line>): Text {
    if lines == [] then c.nick
    else
      var init, last := lines[..|lines| - 1], lines[|lines| - 1];
      if last.command == WELCOME then ParamOr(last, 0, NickAfter(c, init))
      else if last.command == NICK_IN_USE && !Saw(init, WELCOME) then NickAfter(c, init) + [UNDERSCORE]
      else NickAfter(c, init)
  }

  /** A 001 is accepted: with SASL only after a 903. */
  predicate Accepts(c: Config, before: seq<Line>, line: Line) {
    line.command == WELCOME && (c.sasl ==> Saw(before, SASL_SUCCESS))
  }

  /** What a line is answered with while the handshake is open. */
  function Reply(c: Config, before: seq<Line>, line: Line): seq<Written> {
    if IsCap(line, LS) && !MoreFollow(line) then [CapReqSasl]
    else if IsCap(line, ACK) && SASL in SplitOn(CapList(line), SPACE) then [AuthenticatePlain]
    else if line.command == AUTHENTICATE && ParamOr(line, 0, []) == [PLUS] then
      AuthenticateLines(AuthenticateChunks(c.payload))
    else if line.command == SASL_SUCCESS then [CapEnd]
    else if line.command == NICK_IN_USE && !Saw(before, WELCOME) then [Nick(NickAfter(c, before) + [UNDERSCORE])]
    else if line.command == WELCOME && c.channels != [] then [Join(c.channels)]
    else []
  }

  /** Why a line refuses the handshake, if it does. */
  function Refuses(c: Config, before: seq<Line>, line: Line): Option<Reason> {
    if line.command == ERROR then Some(LinkClosed)
    else if IsCap(line, LS) && !MoreFollow(line) && SASL !in Offers(before + [line]) then Some(NoSaslOffered)
    else if IsCap(line, NAK) then Some(SaslNak)
    else if line.command in SASL_REFUSALS then Some(SaslRefused)
    else if line.command in JOIN_REFUSALS then Some(JoinRefused)
    else if line.command in CONNECTION_REFUSALS then Some(ConnectionRefused)
    else if line.command == NICK_IN_USE && !Saw(before, WELCOME) && Retries(before) >= NICK_RETRIES then Some(NickInUse)
    else if line.command == WELCOME && !Accepts(c, before, line) then Some(WelcomedWithoutSasl)
    else None
  }

  /** A line completes the registration: a 001 without channels, or the 366 of the last channel. */
  predicate Completes(c: Config, before: seq<Line>, line: Line) {
    if c.channels == [] then Accepts(c, before, line)
    else line.command == END_OF_NAMES && Saw(before, WELCOME) && LowerAll(c.channels) <= Joined(before + [line])
  }

  function OutcomeOf(c: Config, before: seq<Line>, line: Line): Option<Outcome> {
    match Refuses(c, before, line)
    case Some(r) => Some(Refused(r))
    case None => if Completes(c, before, line) then Some(Ok(NickAfter(c, before + [line]))) else None
  }

  /** The opening lines, and then each line's reply. */
  function Trace(c: Config, lines: seq<Line>): seq<Written> {
    if lines == [] then
      (if c.password.Some? then [Pass(c.password.value)] else []) + (if c.sasl then [CapLs] else [])
      + [Nick(c.nick)] + [User(c.username, c.realname)]
    else
      var init, last := lines[..|lines| - 1], lines[|lines| - 1];
      Trace(c, init) + Reply(c, init, last)
  }

  /** The fields are what the lines say. */
  ghost predicate Tells(c: Config, lines: seq<Line>, s: State) {
    && Remembers(c, lines, s)
    && s.offered == Offers(lines) && s.retries == Retries(lines) && s.nick == NickAfter(c, lines)
    && s.written == Trace(c, lines)
  }

  lemma {:induction false} Appended(c: Config, lines: seq<Line>, line: Line)
    ensures Offers(lines + [line]) == Offers(lines) + (if IsCap(line, LS) then CapNames(CapList(line)) else [])
    ensures Retries(lines + [line])
         == Retries(lines) + (if line.command == NICK_IN_USE && !Saw(lines, WELCOME) then 1 else 0)
    ensures NickAfter(c, lines + [line])
         == if line.command == WELCOME then ParamOr(line, 0, NickAfter(c, lines))
            else if line.command == NICK_IN_USE && !Saw(lines, WELCOME) then NickAfter(c, lines) + [UNDERSCORE]
            else NickAfter(c, lines)
    ensures Trace(c, lines + [line]) == Trace(c, lines) + Reply(c, lines, line)
  {
    var all := lines + [line];
    assert all[..|all| - 1] == lines && all[|all| - 1] == line;
  }

  /** The next line's outcome, and what it adds to what is written. */
  ghost predicate Answers(c: Config, lines: seq<Line>, s: State, line: Line) {
    var turn := OnLine(c, s, line);
    && turn.outcome == OutcomeOf(c, lines, line)
    && (turn.outcome.None? ==>
          && turn.state.written == s.written + Reply(c, lines, line)
          && turn.state.offered == Offers(lines + [line]) && turn.state.retries == Retries(lines + [line]))
    && (turn.outcome.Some? ==> turn.state.written == s.written)
    && (turn.outcome.None? || turn.outcome.value.Ok? ==> turn.state.nick == NickAfter(c, lines + [line]))
  }

  /** A CAP line is no other line. */
  lemma {:induction false} OnlyCap(c: Config, lines: seq<Line>, s: State, line: Line)
    requires line.command == CAP
    ensures OnLine(c, s, line) == OnCap(s, line) && !Completes(c, lines, line)
    ensures Reply(c, lines, line)
         == if IsCap(line, LS) && !MoreFollow(line) then [CapReqSasl]
            else if IsCap(line, ACK) && SASL in SplitOn(CapList(line), SPACE) then [AuthenticatePlain]
            else []
    ensures Refuses(c, lines, line)
         == if IsCap(line, LS) && !MoreFollow(line) && SASL !in Offers(lines + [line]) then Some(NoSaslOffered)
            else if IsCap(line, NAK) then Some(SaslNak)
            else None
  {
  }

  lemma {:induction false} OfferAnswers(c: Config, lines: seq<Line>, s: State, line: Line)
    requires Tells(c, lines, s) && IsCap(line, LS)
    ensures Answers(c, lines, s, line)
  {
    OnlyCap(c, lines, s, line);
    Appended(c, lines, line);
    OffersKept(c, lines, s, line, OnLine(c, s, line), OutcomeOf(c, lines, line));
  }

  lemma {:induction false} OffersKept(
      c: Config, lines: seq<Line>, s: State, line: Line, turn: Turn, outcome: Option<Outcome>)
    requires turn == OnOffer(s, CapList(line), MoreFollow(line)) && s.offered == Offers(lines)
    requires Offers(lines + [line]) == Offers(lines) + CapNames(CapList(line))
    requires outcome == if MoreFollow(line) || SASL in Offers(lines + [line]) then None
                        else Some(Refused(NoSaslOffered))
    ensures turn.outcome == outcome && turn.state.nick == s.nick && turn.state.retries == s.retries
    ensures turn.outcome.None? ==> turn.state.offered == Offers(lines + [line])
    ensures turn.state.written
         == s.written + (if turn.outcome.None? && !MoreFollow(line) then [CapReqSasl] else [])
  {
    assert s.written + [] == s.written;
  }

  lemma {:induction false} CapAnswers(c: Config, lines: seq<Line>, s: State, line: Line)
    requires Tells(c, lines, s) && line.command == CAP && !IsCap(line, LS)
    ensures Answers(c, lines, s, line)
  {
    OnlyCap(c, lines, s, line);
    Appended(c, lines, line);
    assert s.written + [] == s.written;
  }

  lemma {:induction false} OnlyNick(c: Config, lines: seq<Line>, s: State, line: Line)
    requires line.command == NICK_IN_USE
    ensures OnLine(c, s, line) == OnNickInUse(s) && !Completes(c, lines, line)
    ensures Reply(c, lines, line) == if Saw(lines, WELCOME) then [] else [Nick(NickAfter(c, lines) + [UNDERSCORE])]
    ensures Refuses(c, lines, line)
         == if !Saw(lines, WELCOME) && Retries(lines) >= NICK_RETRIES then Some(NickInUse) else None
  {
  }

  /** The nick's part of what is appended. */
  lemma {:induction false} NickAppended(c: Config, lines: seq<Line>, line: Line, seen: bool)
    requires line.command == NICK_IN_USE && seen == Saw(lines, WELCOME)
    ensures Offers(lines + [line]) == Offers(lines)
    ensures Retries(lines + [line]) == Retries(lines) + (if seen then 0 else 1)
    ensures NickAfter(c, lines + [line]) == if seen then NickAfter(c, lines) else NickAfter(c, lines) + [UNDERSCORE]
  {
    Appended(c, lines, line);
  }

  lemma {:induction false} NickAnswers(c: Config, lines: seq<Line>, s: State, line: Line)
    requires Tells(c, lines, s) && line.command == NICK_IN_USE
    ensures Answers(c, lines, s, line)
  {
    OnlyNick(c, lines, s, line);
    NickAppended(c, lines, line, s.welcomed);
    NickTurn(s, OnLine(c, s, line));
  }

  lemma {:induction false} NickTurn(s: State, turn: Turn)
    requires turn == OnNickInUse(s)
    ensures turn.outcome == if !s.welcomed && s.retries >= NICK_RETRIES then Some(Refused(NickInUse)) else None
    ensures turn.state.offered == s.offered
    ensures s.welcomed || turn.outcome.Some? ==> turn.state == s
    ensures !s.welcomed && turn.outcome.None? ==>
              && turn.state.retries == s.retries + 1 && turn.state.nick == s.nick + [UNDERSCORE]
              && turn.state.written == s.written + [Nick(s.nick + [UNDERSCORE])]
    ensures s.written + [] == s.written
  {
  }

  lemma {:induction false} OnlyWelcome(c: Config, lines: seq<Line>, s: State, line: Line)
    requires line.command == WELCOME
    ensures OnLine(c, s, line) == OnWelcome(c, s, line)
    ensures Reply(c, lines, line) == if c.channels != [] then [Join(c.channels)] else []
    ensures Refuses(c, lines, line) == if Accepts(c, lines, line) then None else Some(WelcomedWithoutSasl)
    ensures Completes(c, lines, line) <==> c.channels == [] && Accepts(c, lines, line)
  {
  }

  lemma {:induction false} WelcomeAppended(c: Config, lines: seq<Line>, line: Line)
    requires line.command == WELCOME
    ensures Offers(lines + [line]) == Offers(lines) && Retries(lines + [line]) == Retries(lines)
    ensures NickAfter(c, lines + [line]) == ParamOr(line, 0, NickAfter(c, lines))
  {
    Appended(c, lines, line);
  }

  lemma {:induction false} WelcomeTurn(c: Config, s: State, line: Line, turn: Turn)
    requires turn == OnWelcome(c, s, line)
    ensures turn.outcome == if c.sasl && !s.saslDone then Some(Refused(WelcomedWithoutSasl))
                            else if c.channels == [] then Some(Ok(ParamOr(line, 0, s.nick)))
                            else None
    ensures turn.state.offered == s.offered && turn.state.retries == s.retries
    ensures turn.outcome.None? || turn.outcome.value.Ok? ==> turn.state.nick == ParamOr(line, 0, s.nick)
    ensures turn.state.written == if turn.outcome.None? then s.written + [Join(c.channels)] else s.written
  {
  }

  lemma {:induction false} WelcomeAnswers(c: Config, lines: seq<Line>, s: State, line: Line)
    requires Tells(c, lines, s) && line.command == WELCOME
    ensures Answers(c, lines, s, line)
  {
    OnlyWelcome(c, lines, s, line);
    WelcomeAppended(c, lines, line);
    WelcomeTurn(c, s, line, OnLine(c, s, line));
  }

  lemma {:induction false} OnlyNames(c: Config, lines: seq<Line>, s: State, line: Line)
    requires line.command == END_OF_NAMES
    ensures OnLine(c, s, line) == OnEndOfNames(s, line)
    ensures Reply(c, lines, line) == [] && Refuses(c, lines, line).None?
    ensures Completes(c, lines, line) <==>
              c.channels != [] && Saw(lines, WELCOME) && LowerAll(c.channels) <= Joined(lines + [line])
  {
  }

  lemma {:induction false} NamesAnswer(c: Config, lines: seq<Line>, s: State, line: Line)
    requires Tells(c, lines, s) && line.command == END_OF_NAMES
    ensures Answers(c, lines, s, line)
  {
    OnlyNames(c, lines, s, line);
    NothingNew(c, lines, line);
    JoinedAppend(lines, line);
    assert s.written + [] == s.written;
  }

  lemma {:induction false} OnlyPrompt(c: Config, lines: seq<Line>, s: State, line: Line)
    requires line.command == AUTHENTICATE
    ensures OnLine(c, s, line) == OnAuthenticate(c, s, line) && OutcomeOf(c, lines, line).None?
    ensures Reply(c, lines, line)
         == if ParamOr(line, 0, []) == [PLUS] then AuthenticateLines(AuthenticateChunks(c.payload)) else []
  {
  }

  lemma {:induction false} NothingNew(c: Config, lines: seq<Line>, line: Line)
    requires line.command != WELCOME && line.command != NICK_IN_USE && line.command != CAP
    ensures Offers(lines + [line]) == Offers(lines) && Retries(lines + [line]) == Retries(lines)
    ensures NickAfter(c, lines + [line]) == NickAfter(c, lines)
  {
    Appended(c, lines, line);
  }

  lemma {:induction false} PromptAnswers(c: Config, lines: seq<Line>, s: State, line: Line)
    requires Tells(c, lines, s) && line.command == AUTHENTICATE
    ensures Answers(c, lines, s, line)
  {
    OnlyPrompt(c, lines, s, line);
    NothingNew(c, lines, line);
    assert s.written + [] == s.written;
  }

  lemma {:induction false} OnlySuccess(c: Config, lines: seq<Line>, s: State, line: Line)
    requires line.command == SASL_SUCCESS
    ensures OnLine(c, s, line) == Wrote(s.(saslDone := true), [CapEnd])
    ensures OutcomeOf(c, lines, line).None? && Reply(c, lines, line) == [CapEnd]
  {
  }

  lemma {:induction false} SuccessAnswers(c: Config, lines: seq<Line>, s: State, line: Line)
    requires Tells(c, lines, s) && line.command == SASL_SUCCESS
    ensures Answers(c, lines, s, line)
  {
    OnlySuccess(c, lines, s, line);
    NothingNew(c, lines, line);
  }

  predicate IsRefusal(line: Line) {
    line.command == ERROR || line.command in SASL_REFUSALS + JOIN_REFUSALS + CONNECTION_REFUSALS
  }

  lemma {:induction false} RefusalAnswers(c: Config, lines: seq<Line>, s: State, line: Line)
    requires Tells(c, lines, s) && IsRefusal(line)
    ensures Answers(c, lines, s, line)
  {
  }

  lemma {:induction false} OthersAnswer(c: Config, lines: seq<Line>, s: State, line: Line)
    requires Tells(c, lines, s) && !IsRefusal(line)
    requires line.command != CAP && line.command != NICK_IN_USE && line.command != WELCOME
    requires line.command != END_OF_NAMES && line.command != AUTHENTICATE && line.command != SASL_SUCCESS
    ensures Answers(c, lines, s, line)
  {
    Appended(c, lines, line);
  }

  lemma {:induction false} LineAnswers(c: Config, lines: seq<Line>, s: State, line: Line)
    requires Tells(c, lines, s)
    ensures Answers(c, lines, s, line)
  {
    if IsCap(line, LS) {
      OfferAnswers(c, lines, s, line);
    } else if line.command == CAP {
      CapAnswers(c, lines, s, line);
    } else if line.command == NICK_IN_USE {
      NickAnswers(c, lines, s, line);
    } else if line.command == WELCOME {
      WelcomeAnswers(c, lines, s, line);
    } else if line.command == END_OF_NAMES {
      NamesAnswer(c, lines, s, line);
    } else if line.command == AUTHENTICATE {
      PromptAnswers(c, lines, s, line);
    } else if line.command == SASL_SUCCESS {
      SuccessAnswers(c, lines, s, line);
    } else if IsRefusal(line) {
      RefusalAnswers(c, lines, s, line);
    } else {
      OthersAnswer(c, lines, s, line);
    }
  }

  lemma {:induction false} RunStep(c: Config, lines: seq<Line>, line: Line)
    ensures var before := Run(c, lines);
            Run(c, lines + [line]) == if before.outcome.Some? then before else OnLine(c, before.state, line)
  {
    var all := lines + [line];
    assert all[..|all| - 1] == lines && all[|all| - 1] == line;
  }

  /** While the handshake is open everything it holds and wrote is said by the lines read. */
  lemma {:induction false} RunTells(c: Config, lines: seq<Line>)
    requires Run(c, lines).outcome.None?
    ensures Tells(c, lines, Run(c, lines).state)
    decreases |lines|
  {
    if lines == [] {
      StartTells(c);
    } else {
      var init, line := lines[..|lines| - 1], lines[|lines| - 1];
      assert init + [line] == lines;
      RunStep(c, init, line);
      RunTells(c, init);
      RunRemembers(c, lines);
      TurnTells(c, init, Run(c, init).state, line, Run(c, lines).state);
    }
  }

  lemma {:induction false} StartTells(c: Config)
    ensures Tells(c, [], Run(c, []).state)
  {
    RunRemembers(c, []);
    assert Started(c).written == Trace(c, []);
  }

  lemma {:induction false} TurnTells(c: Config, init: seq<Line>, s: State, line: Line, t: State)
    requires Tells(c, init, s) && OnLine(c, s, line) == Turn(t, None) && Remembers(c, init + [line], t)
    ensures Tells(c, init + [line], t)
  {
    LineAnswers(c, init, s, line);
    NextTells(c, init, s, line, t);
  }

  lemma {:induction false} NextTells(c: Config, init: seq<Line>, s: State, line: Line, t: State)
    requires Tells(c, init, s) && Answers(c, init, s, line)
    requires OnLine(c, s, line) == Turn(t, None) && Remembers(c, init + [line], t)
    ensures Tells(c, init + [line], t)
  {
    Appended(c, init, line);
  }

  /**
   Said of the lines alone, for every sequence of them: an open handshake has written exactly the
   opening lines and each line's reply, and its outcome on the next line is the one that line gives.
   */
  lemma {:induction false} HandshakeExactly(c: Config, lines: seq<Line>, line: Line)
    requires Run(c, lines).outcome.None?
    ensures Run(c, lines).state.written == Trace(c, lines)
    ensures Run(c, lines + [line]).outcome == OutcomeOf(c, lines, line)
    ensures Run(c, lines + [line]).state.written
         == if OutcomeOf(c, lines, line).None? then Trace(c, lines + [line]) else Trace(c, lines)
  {
    RunTells(c, lines);
    LineAnswers(c, lines, Run(c, lines).state, line);
    Appended(c, lines, line);
    RunStep(c, lines, line);
  }

  // ---- JOIN ----

  function CountJoins(written: seq<Written>): nat {
    if written == [] then 0
    else CountJoins(written[..|written| - 1]) + (if written[|written| - 1].Join? then 1 else 0)
  }

  function CountWelcomes(lines: seq<Line>): nat {
    if lines == [] then 0
    else CountWelcomes(lines[..|lines| - 1]) + (if lines[|lines| - 1].command == WELCOME then 1 else 0)
  }

  ghost predicate OnlyJoins(written: seq<Written>, channels: seq<Text>) {
    forall i :: 0 <= i < |written| && written[i].Join? ==> written[i] == Join(channels)
  }

  lemma {:induction false} NoJoins(a: seq<Written>, b: seq<Written>)
    requires forall i :: 0 <= i < |b| ==> !b[i].Join?
    ensures CountJoins(a + b) == CountJoins(a)
  {
    if b == [] {
      assert a + b == a;
    } else {
      assert (a + b)[..|a + b| - 1] == a + b[..|b| - 1];
      NoJoins(a, b[..|b| - 1]);
    }
  }

  /** While the handshake is open: one JOIN of all the channels for each 001, if there are channels, and no other. */
  lemma {:induction false} JoinsAtWelcome(c: Config, lines: seq<Line>)
    requires Run(c, lines).outcome.None?
    ensures var written := Run(c, lines).state.written;
            && CountJoins(written) == (if c.channels == [] then 0 else CountWelcomes(lines))
            && OnlyJoins(written, c.channels)
    decreases |lines|
  {
    RunTells(c, lines);
    JoinsOfTrace(c, lines);
  }

  lemma {:induction false} JoinsOfTrace(c: Config, lines: seq<Line>)
    ensures CountJoins(Trace(c, lines)) == if c.channels == [] then 0 else CountWelcomes(lines)
    ensures OnlyJoins(Trace(c, lines), c.channels)
    decreases |lines|
  {
    if lines == [] {
      NoJoins([], Trace(c, []));
      assert [] + Trace(c, []) == Trace(c, []);
    } else {
      var init, line := lines[..|lines| - 1], lines[|lines| - 1];
      JoinsOfTrace(c, init);
      JoinsOfReply(c, Trace(c, init), init, line);
    }
  }

  lemma {:induction false} JoinsOfReply(c: Config, a: seq<Written>, init: seq<Line>, line: Line)
    requires OnlyJoins(a, c.channels)
    ensures OnlyJoins(a + Reply(c, init, line), c.channels)
    ensures CountJoins(a + Reply(c, init, line))
         == CountJoins(a) + (if line.command == WELCOME && c.channels != [] then 1 else 0)
  {
    var b := Reply(c, init, line);
    if line.command == WELCOME && c.channels != [] {
      assert b == [Join(c.channels)] && (a + b)[..|a + b| - 1] == a;
    } else {
      NoJoins(a, b);
    }
  }

  // ---- a server that grants everything ----

  lemma {:induction false} LastApart(a: seq<Line>, b: seq<Line>, k: nat)
    requires k < |b|
    ensures (a + b[..k]) + [b[k]] == a + b[..k + 1]
    ensures k + 1 == |b| ==> (a + b[..k]) + [b[k]] == a + b
    ensures k + 1 == |b| && a == [] ==> b[..k] + [b[k]] == b
  {
    assert b[..k] + [b[k]] == b[..k + 1];
    if k + 1 == |b| { assert b[..k + 1] == b; }
  }

  /** The lines up to the welcome: with SASL the offer, the acknowledgement, the prompt, the success; then a 001. */
  ghost predicate Greets(c: Config, script: seq<Line>) {
    if c.sasl then
      && |script| == 5
      && IsCap(script[0], LS) && !MoreFollow(script[0]) && SASL in CapNames(CapList(script[0]))
      && IsCap(script[1], ACK) && SASL in SplitOn(CapList(script[1]), SPACE)
      && script[2].command == AUTHENTICATE && ParamOr(script[2], 0, []) == [PLUS]
      && script[3].command == SASL_SUCCESS && script[4].command == WELCOME
    else |script| == 1 && script[0].command == WELCOME
  }

  function Opening(c: Config): seq<Written> {
    (if c.password.Some? then [Pass(c.password.value)] else []) + (if c.sasl then [CapLs] else [])
    + [Nick(c.nick)] + [User(c.username, c.realname)]
  }

  /** A line that neither refuses nor completes: its reply is written and the handshake stays open. */
  lemma {:induction false} StaysOpen(c: Config, lines: seq<Line>, line: Line, reply: seq<Written>)
    requires Run(c, lines).outcome.None? && OutcomeOf(c, lines, line).None? && reply == Reply(c, lines, line)
    ensures Run(c, lines + [line]).outcome.None?
    ensures Run(c, lines + [line]).state.written == Run(c, lines).state.written + reply
  {
    HandshakeExactly(c, lines, line);
    Appended(c, lines, line);
  }

  /** What the lines of a granting server are answered with. */
  lemma {:induction false} OfferReply(c: Config, lines: seq<Line>, line: Line)
    requires IsCap(line, LS) && !MoreFollow(line) && SASL in CapNames(CapList(line))
    ensures OutcomeOf(c, lines, line).None? && Reply(c, lines, line) == [CapReqSasl]
  {
    OnlyCap(c, lines, Started(c), line);
    Appended(c, lines, line);
  }

  lemma {:induction false} AckReply(c: Config, lines: seq<Line>, line: Line)
    requires IsCap(line, ACK) && SASL in SplitOn(CapList(line), SPACE)
    ensures OutcomeOf(c, lines, line).None? && Reply(c, lines, line) == [AuthenticatePlain]
  {
    OnlyCap(c, lines, Started(c), line);
  }

  lemma {:induction false} SaslReplies(c: Config, lines: seq<Line>, line: Line)
    ensures line.command == AUTHENTICATE && ParamOr(line, 0, []) == [PLUS] ==>
              && OutcomeOf(c, lines, line).None?
              && Reply(c, lines, line) == AuthenticateLines(AuthenticateChunks(c.payload))
    ensures line.command == SASL_SUCCESS ==>
              OutcomeOf(c, lines, line).None? && Reply(c, lines, line) == [CapEnd]
  {
  }

  lemma {:induction false} WelcomeReplies(c: Config, lines: seq<Line>, line: Line)
    requires Accepts(c, lines, line)
    ensures c.channels != [] ==> OutcomeOf(c, lines, line).None? && Reply(c, lines, line) == [Join(c.channels)]
    ensures c.channels == [] ==> OutcomeOf(c, lines, line) == Some(Ok(NickAfter(c, lines + [line])))
  {
  }

  lemma {:induction false} NamesReply(c: Config, lines: seq<Line>, line: Line)
    requires line.command == END_OF_NAMES && Saw(lines, WELCOME) && c.channels != []
    ensures Reply(c, lines, line) == []
    ensures OutcomeOf(c, lines, line)
         == if LowerAll(c.channels) <= Joined(lines + [line]) then Some(Ok(NickAfter(c, lines + [line]))) else None
  {
  }

  /** What SASL adds to what is written: the request, the mechanism, the payload's chunks and CAP END. */
  function SaslLines(chunks: seq<Text>): seq<Written> {
    [CapReqSasl] + [AuthenticatePlain] + AuthenticateLines(chunks) + [CapEnd]
  }

  /** With SASL, up to the 903. */
  lemma {:induction false} SaslGranted(c: Config, script: seq<Line>)
    requires c.sasl && Greets(c, script)
    ensures Run(c, script[..4]).outcome.None? && Saw(script[..4], SASL_SUCCESS)
    ensures Run(c, script[..4]).state.written == Opening(c) + SaslLines(AuthenticateChunks(c.payload))
  {
    var l1, l2 := [] + [script[0]], [] + [script[0]] + [script[1]];
    var chunks := AuthenticateLines(AuthenticateChunks(c.payload));
    assert Run(c, []).state.written == Opening(c);
    OfferReply(c, [], script[0]);
    StaysOpen(c, [], script[0], [CapReqSasl]);
    AckReply(c, l1, script[1]);
    StaysOpen(c, l1, script[1], [AuthenticatePlain]);
    SaslReplies(c, l2, script[2]);
    StaysOpen(c, l2, script[2], chunks);
    SaslReplies(c, l2 + [script[2]], script[3]);
    StaysOpen(c, l2 + [script[2]], script[3], [CapEnd]);
    SaslEnds(c, script, Run(c, script[..4]).state.written, chunks);
  }

  lemma {:induction false} SaslEnds(c: Config, script: seq<Line>, written: seq<Written>, chunks: seq<Written>)
    requires |script| == 5 && script[3].command == SASL_SUCCESS
    requires chunks == AuthenticateLines(AuthenticateChunks(c.payload))
    requires Run(c, [] + [script[0]] + [script[1]] + [script[2]] + [script[3]]).state.written
          == Opening(c) + [CapReqSasl] + [AuthenticatePlain] + chunks + [CapEnd]
    requires Run(c, [] + [script[0]] + [script[1]] + [script[2]] + [script[3]]).outcome.None?
    ensures Run(c, script[..4]).outcome.None? && Saw(script[..4], SASL_SUCCESS)
    ensures Run(c, script[..4]).state.written == Opening(c) + SaslLines(AuthenticateChunks(c.payload))
  {
    assert script[..4] == [] + [script[0]] + [script[1]] + [script[2]] + [script[3]];
    assert script[..4][3].command == SASL_SUCCESS;
    assert Opening(c) + [CapReqSasl] + [AuthenticatePlain] + chunks + [CapEnd]
        == Opening(c) + ([CapReqSasl] + [AuthenticatePlain] + chunks + [CapEnd]);
  }

  /** Before the 001 of a granting server: open, SASL done if asked for, and what was written. */
  lemma {:induction false} BeforeWelcome(c: Config, script: seq<Line>, before: seq<Line>, last: Line)
    requires Greets(c, script) && before == script[..|script| - 1] && last == script[|script| - 1]
    ensures Run(c, before).outcome.None? && Accepts(c, before, last)
    ensures Run(c, before).state.written
         == Opening(c) + (if c.sasl then SaslLines(AuthenticateChunks(c.payload)) else [])
  {
    if c.sasl {
      SaslGranted(c, script);
    } else {
      assert before == [] && Started(c).written == Opening(c) == Opening(c) + [];
    }
  }

  /** What a granted handshake writes up to its JOIN, and that a server reads the payload off it. */
  lemma {:induction false} WelcomeJoins(c: Config, script: seq<Line>) returns (chunks: seq<Text>)
    requires Greets(c, script) && c.channels != []
    ensures Run(c, script).outcome.None? && Saw(script, WELCOME)
    ensures ServerReads(chunks) == Some(Reading(c.payload, []))
    ensures Run(c, script).state.written
         == Opening(c) + (if c.sasl then SaslLines(chunks) else []) + [Join(c.channels)]
  {
    chunks := AuthenticateChunks(c.payload);
    ServerRecoversPayload(c.payload);
    JoinWritten(c, script, script[..|script| - 1], script[|script| - 1]);
  }

  lemma {:induction false} JoinWritten(c: Config, script: seq<Line>, before: seq<Line>, last: Line)
    requires Greets(c, script) && c.channels != []
    requires before == script[..|script| - 1] && last == script[|script| - 1]
    ensures Run(c, script).outcome.None? && Saw(script, WELCOME)
    ensures Run(c, script).state.written
         == Opening(c) + (if c.sasl then SaslLines(AuthenticateChunks(c.payload)) else []) + [Join(c.channels)]
  {
    LastApart([], script, |script| - 1);
    BeforeWelcome(c, script, before, last);
    WelcomeStaysOpen(c, before, last);
    SawAppend(before, last, WELCOME);
  }

  lemma {:induction false} WelcomeStaysOpen(c: Config, before: seq<Line>, last: Line)
    requires Run(c, before).outcome.None? && Accepts(c, before, last) && c.channels != []
    ensures Run(c, before + [last]).outcome.None?
    ensures Run(c, before + [last]).state.written == Run(c, before).state.written + [Join(c.channels)]
  {
    WelcomeReplies(c, before, last);
    StaysOpen(c, before, last, [Join(c.channels)]);
  }

  /** The 366 lines: each one, and only the last completes the channels. */
  ghost predicate NamesFor(c: Config, names: seq<Line>) {
    && names != [] && (forall i :: 0 <= i < |names| ==> names[i].command == END_OF_NAMES)
    && LowerAll(c.channels) <= Joined(names)
    && (forall k :: 0 <= k < |names| ==> !(LowerAll(c.channels) <= Joined(names[..k])))
  }

  lemma {:induction false} GreetingJoinsNone(c: Config, script: seq<Line>)
    requires Greets(c, script)
    ensures Joined(script) == {}
  {
  }

  lemma {:induction false} JoinedConcat(a: seq<Line>, b: seq<Line>)
    ensures Joined(a + b) == Joined(a) + Joined(b)
    decreases |b|
  {
    if b == [] {
      assert a + b == a && Joined(b) == {};
    } else {
      var init, last := b[..|b| - 1], b[|b| - 1];
      JoinedConcat(a, init);
      JoinedAppend(a + init, last);
      JoinedAppend(init, last);
      assert a + b == (a + init) + [last] && b == init + [last];
    }
  }

  lemma {:induction false} NamesAwaited(c: Config, script: seq<Line>, names: seq<Line>, k: nat)
    requires Run(c, script).outcome.None? && Saw(script, WELCOME) && Joined(script) == {}
    requires c.channels != [] && NamesFor(c, names) && k < |names|
    ensures Run(c, script + names[..k]).outcome.None? && Saw(script + names[..k], WELCOME)
    ensures Run(c, script + names[..k]).state.written == Run(c, script).state.written
  {
    if k == 0 {
      assert script + names[..0] == script;
    } else {
      NamesAwaited(c, script, names, k - 1);
      LastApart(script, names, k - 1);
      JoinedConcat(script, names[..k]);
      NotAllNamed(c, script + names[..k - 1], names[k - 1]);
    }
  }

  lemma {:induction false} NotAllNamed(c: Config, before: seq<Line>, line: Line)
    requires Run(c, before).outcome.None? && Saw(before, WELCOME) && c.channels != []
    requires line.command == END_OF_NAMES && !(LowerAll(c.channels) <= Joined(before + [line]))
    ensures Run(c, before + [line]).outcome.None? && Saw(before + [line], WELCOME)
    ensures Run(c, before + [line]).state.written == Run(c, before).state.written
  {
    NamesReply(c, before, line);
    StaysOpen(c, before, line, []);
    SawAppend(before, line, WELCOME);
  }

  /** And the last 366 is the ok. */
  lemma {:induction false} NamesComplete(c: Config, script: seq<Line>, names: seq<Line>)
    requires Run(c, script).outcome.None? && Saw(script, WELCOME) && Joined(script) == {}
    requires c.channels != [] && NamesFor(c, names)
    ensures Run(c, script + names).outcome == Some(Ok(NickAfter(c, script + names)))
    ensures Run(c, script + names).state.written == Run(c, script).state.written
  {
    var k := |names| - 1;
    NamesAwaited(c, script, names, k);
    JoinedConcat(script, names);
    LastApart(script, names, k);
    LastNamed(c, script + names[..k], names[k], script + names, Run(c, script).state.written);
  }

  lemma {:induction false} LastNamed(c: Config, before: seq<Line>, line: Line, all: seq<Line>, written: seq<Written>)
    requires all == before + [line] && Run(c, before).outcome.None? && Saw(before, WELCOME) && c.channels != []
    requires line.command == END_OF_NAMES && LowerAll(c.channels) <= Joined(all)
    requires Run(c, before).state.written == written
    ensures Run(c, all).outcome == Some(Ok(NickAfter(c, all))) && Run(c, all).state.written == written
  {
    AllNamed(c, before, line);
  }

  lemma {:induction false} AllNamed(c: Config, before: seq<Line>, line: Line)
    requires Run(c, before).outcome.None? && Saw(before, WELCOME) && c.channels != []
    requires line.command == END_OF_NAMES && LowerAll(c.channels) <= Joined(before + [line])
    ensures Run(c, before + [line]).outcome == Some(Ok(NickAfter(c, before + [line])))
    ensures Run(c, before + [line]).state.written == Run(c, before).state.written
  {
    NamesReply(c, before, line);
    HandshakeExactly(c, before, line);
  }

  /**
   The whole handshake: a server that offers and grants SASL, welcomes the nick and names every channel
   is answered with exactly the opening lines, the request, the mechanism, the payload it reads back,
   CAP END and one JOIN; and the outcome is ok.
   */
  lemma {:induction false} GrantedHandshake(c: Config, script: seq<Line>, names: seq<Line>)
    returns (chunks: seq<Text>)
    requires Greets(c, script) && c.channels != [] && NamesFor(c, names)
    ensures Run(c, script + names).outcome == Some(Ok(NickAfter(c, script + names)))
    ensures ServerReads(chunks) == Some(Reading(c.payload, []))
    ensures Run(c, script + names).state.written
         == Opening(c) + (if c.sasl then SaslLines(chunks) else []) + [Join(c.channels)]
  {
    chunks := WelcomeJoins(c, script);
    GreetingJoinsNone(c, script);
    NamesComplete(c, script, names);
  }

  /** Without channels the welcome itself is the ok, and no JOIN is written. */
  lemma {:induction false} GrantedWithoutChannels(c: Config, script: seq<Line>)
    requires Greets(c, script) && c.channels == []
    ensures Run(c, script).outcome == Some(Ok(NickAfter(c, script)))
    ensures Run(c, script).state.written
         == Opening(c) + (if c.sasl then SaslLines(AuthenticateChunks(c.payload)) else [])
  {
    WelcomeIsOk(c, script, script[..|script| - 1], script[|script| - 1]);
  }

  lemma {:induction false} WelcomeIsOk(c: Config, script: seq<Line>, before: seq<Line>, last: Line)
    requires Greets(c, script) && c.channels == [] && script != []
    requires before == script[..|script| - 1] && last == script[|script| - 1]
    ensures Run(c, script).outcome == Some(Ok(NickAfter(c, script)))
    ensures Run(c, script).state.written
         == Opening(c) + (if c.sasl then SaslLines(AuthenticateChunks(c.payload)) else [])
  {
    LastApart([], script, |script| - 1);
    BeforeWelcome(c, script, before, last);
    WelcomeCompletes(c, before, last);
  }

  lemma {:induction false} WelcomeCompletes(c: Config, before: seq<Line>, last: Line)
    requires Run(c, before).outcome.None? && Accepts(c, before, last) && c.channels == []
    ensures Run(c, before + [last]).outcome == Some(Ok(NickAfter(c, before + [last])))
    ensures Run(c, before + [last]).state.written == Run(c, before).state.written
  {
    WelcomeReplies(c, before, last);
    HandshakeExactly(c, before, last);
  }
}
