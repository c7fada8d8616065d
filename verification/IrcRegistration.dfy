/**
 The IRC connect handshake: PASS, SASL PLAIN, NICK and USER, the 433 retries, JOIN and the 366 of
 each channel (packages/gateway-irc/src/registration.ts).
 */
module IrcRegistration {
  import opened Utf16
  import opened Options
  import opened IrcLine

  const NICK_RETRIES: nat := 3
  const AUTHENTICATE_CHUNK: nat := 400
  const PLUS: CodeUnit := '+' as int
  const UNDERSCORE: CodeUnit := '_' as int

  /** Base64 text: always whole groups of four. */
  type Base64 = t: Text | |t| % 4 == 0

  /** `payload` is the base64 of `account NUL account NUL password`; the encoding is Node's. */
  datatype Config = Config(
    nick: Text,
    username: Text,
    realname: Text,
    password: Option<Text>,
    sasl: bool,
    payload: Base64,
    channels: seq<Text>
  )

  /** One line handed to `write`. */
  datatype Written =
    | Pass(password: Text)
    | CapLs
    | Nick(nick: Text)
    | User(username: Text, realname: Text)
    | CapReqSasl
    | AuthenticatePlain
    | Authenticate(chunk: Text)
    | CapEnd
    | Join(channels: seq<Text>)

  datatype Reason =
    | LinkClosed | NoSaslOffered | SaslNak | SaslRefused | JoinRefused | ConnectionRefused
    | NickInUse | WelcomedWithoutSasl

  datatype Outcome = Ok(nick: Text) | Refused(reason: Reason)

  datatype State = State(
    nick: Text,
    retries: nat,
    welcomed: bool,
    saslDone: bool,
    offered: seq<Text>,
    waitingFor: set<Text>,
    written: seq<Written>
  )

  datatype Turn = Turn(state: State, outcome: Option<Outcome>)

  // ---- commands ----

  function Numeric(a: nat, b: nat, c: nat): Text
    requires a < 10 && b < 10 && c < 10
  {
    [48 + a, 48 + b, 48 + c]
  }

  const WELCOME: Text := Numeric(0, 0, 1)
  const END_OF_NAMES: Text := Numeric(3, 6, 6)
  const SASL_SUCCESS: Text := Numeric(9, 0, 3)
  const NICK_IN_USE: Text := Numeric(4, 3, 3)
  const JOIN_REFUSALS: set<Text> := {
    Numeric(4, 0, 3), Numeric(4, 0, 5), Numeric(4, 7, 1), Numeric(4, 7, 3), Numeric(4, 7, 4), Numeric(4, 7, 5),
    Numeric(4, 7, 7)
  }
  const SASL_REFUSALS: set<Text> := {
    Numeric(9, 0, 2), Numeric(9, 0, 4), Numeric(9, 0, 5), Numeric(9, 0, 6), Numeric(9, 0, 8)
  }
  const CONNECTION_REFUSALS: set<Text> := { Numeric(4, 6, 4), Numeric(4, 6, 5) }
  /** `ERROR`, `CAP`, `AUTHENTICATE`, and the words a CAP line carries. */
  const ERROR: Text := [69, 82, 82, 79, 82]
  const CAP: Text := [67, 65, 80]
  const AUTHENTICATE: Text := [65, 85, 84, 72, 69, 78, 84, 73, 67, 65, 84, 69]
  const LS: Text := [76, 83]
  const ACK: Text := [65, 67, 75]
  const NAK: Text := [78, 65, 75]
  const SASL: Text := [115, 97, 115, 108]

  /** `ircLower`: ASCII letters, and `[]\~` as the upper forms of `{}|^`. */
  function LowerUnit(u: CodeUnit): CodeUnit {
    if 'A' as int <= u <= 'Z' as int then u + 32
    else if u == '[' as int then '{' as int
    else if u == ']' as int then '}' as int
    else if u == '\\' as int then '|' as int
    else if u == '~' as int then '^' as int
    else u
  }

  function IrcLower(t: Text): Text {
    seq(|t|, i requires 0 <= i < |t| => LowerUnit(t[i]))
  }

  function ParamOr(line: Line, i: nat, absent: Text): Text {
    if i < |line.params| then line.params[i] else absent
  }

  function LowerAll(channels: seq<Text>): set<Text> {
    set i | 0 <= i < |channels| :: IrcLower(channels[i])
  }

  // ---- specification of each turn ----

  function Initial(c: Config): State {
    State(c.nick, 0, false, false, [], LowerAll(c.channels), [])
  }

  function Started(c: Config): State {
    var opening :=
      (if c.password.Some? then [Pass(c.password.value)] else [])
      + (if c.sasl then [CapLs] else [])
      + [Nick(c.nick), User(c.username, c.realname)];
    Initial(c).(written := opening)
  }

  function Wrote(s: State, lines: seq<Written>): Turn {
    Turn(s.(written := s.written + lines), None)
  }

  function Refusal(s: State, reason: Reason): Turn {
    Turn(s, Some(Refused(reason)))
  }

  /** `cap.split("=")[0]`. */
  function CapName(cap: Text): Text {
    SplitOn(cap, EQUALS)[0]
  }

  function CapNames(list: Text): seq<Text> {
    var caps := SplitOn(list, SPACE);
    seq(|caps|, i requires 0 <= i < |caps| => CapName(caps[i]))
  }

  /** A `CAP LS` line: more to come, or the last of them. */
  function OnOffer(s: State, list: Text, more: bool): Turn {
    var s' := s.(offered := s.offered + CapNames(list));
    if more then Turn(s', None)
    else if SASL !in s'.offered then Refusal(s', NoSaslOffered)
    else Wrote(s', [CapReqSasl])
  }

  function CapParams(line: Line): seq<Text> {
    if |line.params| > 2 then line.params[2..] else []
  }

  function LastOrEmpty(rest: seq<Text>): Text {
    if rest == [] then [] else rest[|rest| - 1]
  }

  function OnCap(s: State, line: Line): Turn {
    var subcommand, rest := ParamOr(line, 1, []), CapParams(line);
    var list := LastOrEmpty(rest);
    if subcommand == LS then OnOffer(s, list, |rest| > 1)
    else if subcommand == ACK && SASL in SplitOn(list, SPACE) then Wrote(s, [AuthenticatePlain])
    else if subcommand == NAK then Refusal(s, SaslNak)
    else Turn(s, None)
  }

  function ChunksFrom(payload: Text): seq<Text>
    decreases |payload|
  {
    if payload == [] then []
    else if |payload| <= AUTHENTICATE_CHUNK then [payload]
    else [payload[..AUTHENTICATE_CHUNK]] + ChunksFrom(payload[AUTHENTICATE_CHUNK..])
  }

  /** The chunks of a payload, closed by `+` when the last one is full. */
  function AuthenticateChunks(payload: Text): seq<Text> {
    ChunksFrom(payload) + (if |payload| % AUTHENTICATE_CHUNK == 0 then [[PLUS]] else [])
  }

  function AuthenticateLines(chunks: seq<Text>): seq<Written> {
    seq(|chunks|, i requires 0 <= i < |chunks| => Authenticate(chunks[i]))
  }

  function OnAuthenticate(c: Config, s: State, line: Line): Turn {
    if line.params == [] || line.params[0] != [PLUS] then Turn(s, None)
    else Wrote(s, AuthenticateLines(AuthenticateChunks(c.payload)))
  }

  function OnNickInUse(s: State): Turn {
    if s.welcomed then Turn(s, None)
    else if s.retries >= NICK_RETRIES then Refusal(s, NickInUse)
    else
      var nick := s.nick + [UNDERSCORE];
      Wrote(s.(retries := s.retries + 1, nick := nick), [Nick(nick)])
  }

  function OnWelcome(c: Config, s: State, line: Line): Turn {
    if c.sasl && !s.saslDone then Refusal(s, WelcomedWithoutSasl)
    else
      var s' := s.(welcomed := true, nick := ParamOr(line, 0, s.nick));
      if c.channels == [] then Turn(s', Some(Ok(s'.nick))) else Wrote(s', [Join(c.channels)])
  }

  function JoinedAll(s: State): Option<Outcome> {
    if !s.welcomed || s.waitingFor != {} then None else Some(Ok(s.nick))
  }

  function OnEndOfNames(s: State, line: Line): Turn {
    var s' := s.(waitingFor := s.waitingFor - {IrcLower(ParamOr(line, 1, []))});
    Turn(s', JoinedAll(s'))
  }

  function OnLine(c: Config, s: State, line: Line): Turn {
    if line.command == ERROR then Refusal(s, LinkClosed)
    else if line.command == CAP then OnCap(s, line)
    else if line.command == AUTHENTICATE then OnAuthenticate(c, s, line)
    else if line.command in SASL_REFUSALS then Refusal(s, SaslRefused)
    else if line.command in JOIN_REFUSALS then Refusal(s, JoinRefused)
    else if line.command == SASL_SUCCESS then Wrote(s.(saslDone := true), [CapEnd])
    else if line.command in CONNECTION_REFUSALS then Refusal(s, ConnectionRefused)
    else if line.command == NICK_IN_USE then OnNickInUse(s)
    else if line.command == WELCOME then OnWelcome(c, s, line)
    else if line.command == END_OF_NAMES then OnEndOfNames(s, line)
    else Turn(s, None)
  }

  /** The handshake over the lines of a server, up to the first outcome. */
  function Run(c: Config, lines: seq<Line>): Turn
    decreases |lines|
  {
    if lines == [] then Turn(Started(c), None)
    else
      var before := Run(c, lines[..|lines| - 1]);
      if before.outcome.Some? then before else OnLine(c, before.state, lines[|lines| - 1])
  }

  // ---- the class of the source ----

  class Registration {
    const opts: Config
    var nick: Text
    var retries: nat
    var welcomed: bool
    var saslDone: bool
    var offered: seq<Text>
    var waitingFor: set<Text>
    var written: seq<Written>
    ghost var lines: seq<Line>           // the lines read until the handshake was settled
    ghost var settled: Option<Outcome>

    ghost function View(): State
      reads this
    {
      State(nick, retries, welcomed, saslDone, offered, waitingFor, written)
    }

    /** The object is where its lines lead. */
    ghost predicate Valid()
      reads this
    {
      Run(opts, lines) == Turn(View(), settled)
    }

    constructor (opts: Config)
      ensures this.opts == opts && View() == Initial(opts)
    {
      this.opts := opts;
      nick, retries, welcomed, saslDone := opts.nick, 0, false, false;
      offered, waitingFor, written := [], LowerAll(opts.channels), [];
      lines, settled := [], None;
    }

    method Write(line: Written)
      modifies this`written
      ensures written == old(written) + [line]
    {
      written := written + [line];
    }

    method Start()
      requires View() == Initial(opts)
      modifies this
      ensures View() == Started(opts) && Valid() && settled.None?
    {
      lines, settled := [], None;
      if opts.password.Some? { Write(Pass(opts.password.value)); }
      if opts.sasl { Write(CapLs); }
      Write(Nick(nick));
      Write(User(opts.username, opts.realname));
    }

    /** `onLine`; while the handshake is open, it answers ok exactly when the lines read register the nick. */
    method ReadLine(line: Line) returns (outcome: Option<Outcome>)
      modifies this
      ensures Turn(View(), outcome) == OnLine(opts, old(View()), line)
      ensures old(Valid() && settled.None?) ==>
                && Valid() && lines == old(lines) + [line] && settled == outcome
                && (outcome.Some? && outcome.value.Ok? <==> Registered(opts, lines))
    {
      ghost var open := Valid() && settled.None?;
      outcome := TakeLine(line);
      if open {
        assert (lines + [line])[..|lines|] == lines;
        lines, settled := lines + [line], outcome;
        OkExactlyWhenRegistered(opts, lines);
      }
    }

    method TakeLine(line: Line) returns (outcome: Option<Outcome>)
      modifies this`nick, this`retries, this`welcomed, this`saslDone, this`offered, this`waitingFor, this`written
      ensures Turn(View(), outcome) == OnLine(opts, old(View()), line)
    {
      outcome := None;
      if line.command == ERROR { return Some(Refused(LinkClosed)); }
      if line.command == CAP {
        outcome := ReadCap(line);
      } else if line.command == AUTHENTICATE {
        AnswerAuthenticate(line);
      } else if line.command in SASL_REFUSALS {
        outcome := Some(Refused(SaslRefused));
      } else if line.command in JOIN_REFUSALS {
        outcome := Some(Refused(JoinRefused));
      } else if line.command == SASL_SUCCESS {
        saslDone := true;
        Write(CapEnd);
      } else if line.command in CONNECTION_REFUSALS {
        outcome := Some(Refused(ConnectionRefused));
      } else if line.command == NICK_IN_USE {
        outcome := RetryNick();
      } else if line.command == WELCOME {
        outcome := ReadWelcome(line);
      } else if line.command == END_OF_NAMES {
        waitingFor := waitingFor - {IrcLower(ParamOr(line, 1, []))};
        if welcomed && waitingFor == {} { outcome := Some(Ok(nick)); }
      }
    }

    method ReadCap(line: Line) returns (outcome: Option<Outcome>)
      modifies this`offered, this`written
      ensures Turn(View(), outcome) == OnCap(old(View()), line)
    {
      outcome := None;
      var subcommand, rest := ParamOr(line, 1, []), CapParams(line);
      var list := LastOrEmpty(rest);
      if subcommand == LS {
        outcome := ReadOffer(list, |rest| > 1);
      } else if subcommand == ACK && SASL in SplitOn(list, SPACE) {
        Write(AuthenticatePlain);
      } else if subcommand == NAK {
        return Some(Refused(SaslNak));
      }
    }

    method ReadOffer(list: Text, more: bool) returns (outcome: Option<Outcome>)
      modifies this`offered, this`written
      ensures Turn(View(), outcome) == OnOffer(old(View()), list, more)
    {
      offered := offered + CapNames(list);
      if more { return None; }
      if SASL !in offered { return Some(Refused(NoSaslOffered)); }
      Write(CapReqSasl);
      outcome := None;
    }

    method AnswerAuthenticate(line: Line)
      modifies this`written
      ensures Turn(View(), None) == OnAuthenticate(opts, old(View()), line)
    {
      if line.params == [] || line.params[0] != [PLUS] { return; }
      var encoded: Text := opts.payload;
      var at := 0;
      ghost var sent: seq<Text> := [];
      ghost var before := written;
      while at < |encoded|
        invariant 0 <= at && sent + ChunksFrom(if at <= |encoded| then encoded[at..] else []) == ChunksFrom(encoded)
        invariant written == before + AuthenticateLines(sent)
      {
        var chunk := encoded[at..if at + AUTHENTICATE_CHUNK <= |encoded| then at + AUTHENTICATE_CHUNK else |encoded|];
        ChunkStep(encoded, at, sent);
        Write(Authenticate(chunk));
        sent := sent + [chunk];
        at := at + AUTHENTICATE_CHUNK;
      }
      if |encoded| % AUTHENTICATE_CHUNK == 0 {
        Write(Authenticate([PLUS]));
        sent := sent + [[PLUS]];
      }
      assert sent == AuthenticateChunks(encoded);
    }

    method RetryNick() returns (outcome: Option<Outcome>)
      modifies this`nick, this`retries, this`written
      ensures Turn(View(), outcome) == OnNickInUse(old(View()))
    {
      if welcomed { return None; }
      if retries >= NICK_RETRIES { return Some(Refused(NickInUse)); }
      retries := retries + 1;
      nick := nick + [UNDERSCORE];
      Write(Nick(nick));
      outcome := None;
    }

    method ReadWelcome(line: Line) returns (outcome: Option<Outcome>)
      modifies this`nick, this`welcomed, this`written
      ensures Turn(View(), outcome) == OnWelcome(opts, old(View()), line)
      ensures written == old(written) + (if outcome.None? then [Join(opts.channels)] else [])
      ensures outcome.None? <==> opts.channels != [] && (opts.sasl ==> saslDone)
    {
      if opts.sasl && !saslDone { return Some(Refused(WelcomedWithoutSasl)); }
      welcomed := true;
      nick := ParamOr(line, 0, nick);
      if opts.channels == [] { return Some(Ok(nick)); }
      Write(Join(opts.channels));
      outcome := None;
    }
  }

  lemma {:induction false} ChunkStep(encoded: Text, at: nat, sent: seq<Text>)
    requires at < |encoded|
    ensures var next := at + AUTHENTICATE_CHUNK;
            var chunk := encoded[at..if next <= |encoded| then next else |encoded|];
            sent + ChunksFrom(encoded[at..])
            == (sent + [chunk]) + ChunksFrom(if next <= |encoded| then encoded[next..] else [])
  {
    var t, next := encoded[at..], at + AUTHENTICATE_CHUNK;
    if |t| > AUTHENTICATE_CHUNK {
      assert t[AUTHENTICATE_CHUNK..] == encoded[next..] && t[..AUTHENTICATE_CHUNK] == encoded[at..next];
    } else {
      assert encoded[at..if next <= |encoded| then next else |encoded|] == t;
      assert ChunksFrom(t) == [t] && sent + [t] + [] == sent + [t];
    }
  }

  // ---- what a run of the handshake has seen ----

  predicate Saw(lines: seq<Line>, command: Text) {
    exists i :: 0 <= i < |lines| && lines[i].command == command
  }

  /** The channels whose 366 came, under the server's case mapping. */
  function Joined(lines: seq<Line>): set<Text> {
    set i | 0 <= i < |lines| && lines[i].command == END_OF_NAMES :: IrcLower(ParamOr(lines[i], 1, []))
  }

  /** Every 001 came after a 903. */
  ghost predicate SaslFirst(lines: seq<Line>) {
    forall i :: 0 <= i < |lines| && lines[i].command == WELCOME ==> Saw(lines[..i], SASL_SUCCESS)
  }

  function Underscored(nick: Text, k: nat): Text {
    if k == 0 then nick else Underscored(nick, k - 1) + [UNDERSCORE]
  }

  function NicksTried(nick: Text, k: nat): seq<Text> {
    if k == 0 then [nick] else NicksTried(nick, k - 1) + [Underscored(nick, k)]
  }

  function NickLines(written: seq<Written>): seq<Text> {
    if written == [] then []
    else
      var last := written[|written| - 1];
      NickLines(written[..|written| - 1]) + (if last.Nick? then [last.nick] else [])
  }

  ghost predicate NoNicks(lines: seq<Written>) {
    forall i :: 0 <= i < |lines| ==> !lines[i].Nick?
  }

  lemma {:induction false} NickLinesAppend(a: seq<Written>, b: seq<Written>)
    ensures NoNicks(b) ==> NickLines(a + b) == NickLines(a)
    ensures |b| == 1 && b[0].Nick? ==> NickLines(a + b) == NickLines(a) + [b[0].nick]
  {
    if b == [] {
      assert a + b == a;
    } else {
      assert (a + b)[..|a + b| - 1] == a + b[..|b| - 1];
      NickLinesAppend(a, b[..|b| - 1]);
      if |b| == 1 {
        assert a + b[..0] == a;
      }
    }
  }

  /** The state of an unfinished handshake says exactly what the lines so far said. */
  ghost predicate Remembers(c: Config, lines: seq<Line>, s: State) {
    && (s.welcomed <==> Saw(lines, WELCOME))
    && (s.saslDone <==> Saw(lines, SASL_SUCCESS))
    && s.waitingFor == LowerAll(c.channels) - Joined(lines)
    && (c.sasl ==> SaslFirst(lines))
    && (c.channels == [] ==> !s.welcomed)
  }

  /** The k-th retry is the nick with k underscores, and no other NICK is ever written. */
  ghost predicate NicksSound(c: Config, s: State) {
    && s.retries <= NICK_RETRIES
    && NickLines(s.written) == NicksTried(c.nick, s.retries)
    && (!s.welcomed ==> s.nick == Underscored(c.nick, s.retries))
  }

  lemma {:induction false} SawAppend(lines: seq<Line>, line: Line, command: Text)
    ensures Saw(lines + [line], command) <==> Saw(lines, command) || line.command == command
  {
    var all := lines + [line];
    if line.command == command {
      assert all[|lines|].command == command;
    }
    if i :| 0 <= i < |lines| && lines[i].command == command {
      assert all[i].command == command;
    }
  }

  lemma {:induction false} JoinedAppend(lines: seq<Line>, line: Line)
    ensures Joined(lines + [line])
         == Joined(lines) + (if line.command == END_OF_NAMES then {IrcLower(ParamOr(line, 1, []))} else {})
  {
    var all := lines + [line];
    forall x | x in Joined(lines) ensures x in Joined(all) {
      var i :| 0 <= i < |lines| && lines[i].command == END_OF_NAMES && x == IrcLower(ParamOr(lines[i], 1, []));
      assert all[i] == lines[i];
    }
    if line.command == END_OF_NAMES {
      assert all[|lines|] == line;
    }
  }

  lemma {:induction false} SaslFirstAppend(lines: seq<Line>, line: Line)
    requires SaslFirst(lines) && (line.command == WELCOME ==> Saw(lines, SASL_SUCCESS))
    ensures SaslFirst(lines + [line])
  {
    var all := lines + [line];
    forall i | 0 <= i < |all| && all[i].command == WELCOME ensures Saw(all[..i], SASL_SUCCESS) {
      assert all[..i] == lines[..i];
      assert lines[..|lines|] == lines;
    }
  }

  /** What a turn that gives no outcome does to the fields the outcome depends on. */
  lemma {:induction false} TurnFields(c: Config, s: State, line: Line)
    requires OnLine(c, s, line).outcome.None?
    ensures var t := OnLine(c, s, line).state;
            && (t.welcomed <==> s.welcomed || line.command == WELCOME)
            && (t.saslDone <==> s.saslDone || line.command == SASL_SUCCESS)
            && t.waitingFor == s.waitingFor
               - (if line.command == END_OF_NAMES then {IrcLower(ParamOr(line, 1, []))} else {})
    ensures line.command == WELCOME ==> c.channels != [] && (c.sasl ==> s.saslDone)
  {
  }

  lemma {:induction false} TurnRemembers(c: Config, lines: seq<Line>, s: State, line: Line)
    requires Remembers(c, lines, s)
    requires OnLine(c, s, line).outcome.None?
    ensures Remembers(c, lines + [line], OnLine(c, s, line).state)
  {
    TurnFields(c, s, line);
    SawAppend(lines, line, WELCOME);
    SawAppend(lines, line, SASL_SUCCESS);
    JoinedAppend(lines, line);
    if c.sasl {
      SaslFirstAppend(lines, line);
    }
  }

  /** A turn added these lines: one NICK line for a retry, none otherwise. */
  ghost predicate Adds(s: State, t: State, added: seq<Written>) {
    && t.written == s.written + added
    && ((NoNicks(added) && t.retries == s.retries && (t.welcomed || t.nick == s.nick))
        || (!s.welcomed && s.retries < NICK_RETRIES && t.retries == s.retries + 1
            && t.nick == s.nick + [UNDERSCORE] && added == [Nick(t.nick)]))
    && (s.welcomed ==> t.welcomed)
  }

  lemma {:induction false} TurnWrites(c: Config, s: State, line: Line) returns (added: seq<Written>)
    ensures Adds(s, OnLine(c, s, line).state, added)
  {
    if line.command == CAP {
      added := CapWrites(s, line);
    } else if line.command == AUTHENTICATE {
      added := AuthenticateWrites(c, s, line);
    } else {
      added := OtherWrites(c, s, line);
    }
  }

  lemma {:induction false} CapWrites(s: State, line: Line) returns (added: seq<Written>)
    ensures Adds(s, OnCap(s, line).state, added)
  {
    added := OnCap(s, line).state.written[|s.written|..];
  }

  lemma {:induction false} AuthenticateWrites(c: Config, s: State, line: Line) returns (added: seq<Written>)
    ensures Adds(s, OnAuthenticate(c, s, line).state, added)
  {
    added := OnAuthenticate(c, s, line).state.written[|s.written|..];
  }

  lemma {:induction false} OtherWrites(c: Config, s: State, line: Line) returns (added: seq<Written>)
    requires line.command != CAP && line.command != AUTHENTICATE
    ensures Adds(s, OnLine(c, s, line).state, added)
  {
    added := OnLine(c, s, line).state.written[|s.written|..];
  }

  lemma {:induction false} TurnNicks(c: Config, s: State, line: Line)
    requires NicksSound(c, s)
    ensures NicksSound(c, OnLine(c, s, line).state)
  {
    var added := TurnWrites(c, s, line);
    NickLinesAppend(s.written, added);
    if !NoNicks(added) {
      assert Underscored(c.nick, s.retries + 1) == s.nick + [UNDERSCORE];
    }
  }

  lemma {:induction false} StartedNicks(c: Config)
    ensures NicksSound(c, Started(c))
  {
    var opening := (if c.password.Some? then [Pass(c.password.value)] else []) + (if c.sasl then [CapLs] else []);
    NickLinesAppend([], opening);
    NickLinesAppend(opening, [Nick(c.nick)]);
    NickLinesAppend(opening + [Nick(c.nick)], [User(c.username, c.realname)]);
    assert [] + opening == opening;
    assert Started(c).written == opening + [Nick(c.nick)] + [User(c.username, c.realname)];
  }

  lemma {:induction false} RunRemembers(c: Config, lines: seq<Line>)
    ensures NicksSound(c, Run(c, lines).state)
    ensures Run(c, lines).outcome.None? ==> Remembers(c, lines, Run(c, lines).state)
    decreases |lines|
  {
    if lines == [] {
      StartedNicks(c);
    } else {
      var init, line := lines[..|lines| - 1], lines[|lines| - 1];
      RunRemembers(c, init);
      var before := Run(c, init);
      if before.outcome.None? {
        TurnNicks(c, before.state, line);
        if OnLine(c, before.state, line).outcome.None? {
          TurnRemembers(c, init, before.state, line);
          assert init + [line] == lines;
        }
      }
    }
  }

  /** When the handshake is allowed to answer ok, said of the lines alone. */
  ghost predicate Registered(c: Config, lines: seq<Line>) {
    && lines != []
    && Saw(lines, WELCOME)
    && (c.sasl ==> SaslFirst(lines))
    && LowerAll(c.channels) <= Joined(lines)
    && lines[|lines| - 1].command == (if c.channels == [] then WELCOME else END_OF_NAMES)
  }

  /**
   Ok exactly when it should be: a handshake not yet settled answers ok on its next line if and only
   if that line completes a 001 (after a 903 with SASL) and a 366 for every channel.
   */
  lemma {:induction false} OkExactlyWhenRegistered(c: Config, lines: seq<Line>)
    requires lines != [] && Run(c, lines[..|lines| - 1]).outcome.None?
    ensures (Run(c, lines).outcome.Some? && Run(c, lines).outcome.value.Ok?) <==> Registered(c, lines)
  {
    var init, line := lines[..|lines| - 1], lines[|lines| - 1];
    assert init + [line] == lines;
    RunRemembers(c, init);
    var s := Run(c, init).state;
    SawAppend(init, line, WELCOME);
    JoinedAppend(init, line);
    SaslFirstExactly(c, init, line);
    OkTurn(c, init, s, line);
  }

  lemma {:induction false} SaslFirstExactly(c: Config, init: seq<Line>, line: Line)
    requires c.sasl ==> SaslFirst(init)
    ensures (c.sasl ==> SaslFirst(init + [line]))
            <==> (c.sasl && line.command == WELCOME ==> Saw(init, SASL_SUCCESS))
  {
    if c.sasl && (line.command != WELCOME || Saw(init, SASL_SUCCESS)) {
      SaslFirstAppend(init, line);
    } else if c.sasl {
      var all := init + [line];
      assert all[..|init|] == init && all[|init|].command == WELCOME;
    }
  }

  lemma {:induction false} OkTurn(c: Config, init: seq<Line>, s: State, line: Line)
    requires Remembers(c, init, s)
    ensures var o := OnLine(c, s, line).outcome;
            (o.Some? && o.value.Ok?) <==>
            if c.channels == [] then line.command == WELCOME && (c.sasl ==> Saw(init, SASL_SUCCESS))
            else line.command == END_OF_NAMES && Saw(init, WELCOME)
                 && LowerAll(c.channels) <= Joined(init) + {IrcLower(ParamOr(line, 1, []))}
  {
  }

  /** Every ok, however the run went on, was given on lines that registered the nick. */
  lemma {:induction false} OkMeansRegistered(c: Config, lines: seq<Line>) returns (n: nat)
    requires Run(c, lines).outcome.Some? && Run(c, lines).outcome.value.Ok?
    ensures n <= |lines| && Run(c, lines[..n]) == Run(c, lines) && Saw(lines[..n], WELCOME)
    ensures (c.sasl ==> SaslFirst(lines[..n])) && LowerAll(c.channels) <= Joined(lines[..n])
    decreases |lines|
  {
    var init := lines[..|lines| - 1];
    if Run(c, init).outcome.Some? {
      n := OkMeansRegistered(c, init);
      assert init[..n] == lines[..n];
    } else {
      n := |lines|;
      assert lines[..n] == lines;
      OkExactlyWhenRegistered(c, lines);
    }
  }

  lemma {:induction false} NicksTriedCount(nick: Text, k: nat)
    ensures |NicksTried(nick, k)| == k + 1
    ensures forall i :: 0 <= i <= k ==> NicksTried(nick, k)[i] == Underscored(nick, i)
  {
    if k > 0 {
      NicksTriedCount(nick, k - 1);
    }
  }

  /** At most four NICK lines on any run, the k-th retry being the nick plus k underscores. */
  lemma {:induction false} NickLinesBounded(c: Config, lines: seq<Line>)
    ensures var nicks := NickLines(Run(c, lines).state.written);
            1 <= |nicks| <= NICK_RETRIES + 1 && forall k :: 0 <= k < |nicks| ==> nicks[k] == Underscored(c.nick, k)
  {
    RunRemembers(c, lines);
    NicksTriedCount(c.nick, Run(c, lines).state.retries);
  }

  // ---- SASL: the server's side of the chunks ----

  datatype Reading = Reading(text: Text, left: seq<Text>)

  /** A server joins chunks until one is shorter than 400; `+` is the empty one. */
  function ServerReads(chunks: seq<Text>): Option<Reading> {
    if chunks == [] then None
    else if chunks[0] == [PLUS] then Some(Reading([], chunks[1..]))
    else if |chunks[0]| < AUTHENTICATE_CHUNK then Some(Reading(chunks[0], chunks[1..]))
    else match ServerReads(chunks[1..])
      case None => None
      case Some(r) => Some(Reading(chunks[0] + r.text, r.left))
  }

  lemma {:induction false} ServerRecoversPayload(payload: Text)
    requires |payload| % 4 == 0
    ensures ServerReads(AuthenticateChunks(payload)) == Some(Reading(payload, []))
    decreases |payload|
  {
    var chunks := AuthenticateChunks(payload);
    if payload == [] {
      assert chunks == [[PLUS]] && chunks[1..] == [];
    } else if |payload| < AUTHENTICATE_CHUNK {
      assert chunks == [payload] && chunks[1..] == [];
    } else {
      var head, rest := payload[..AUTHENTICATE_CHUNK], payload[AUTHENTICATE_CHUNK..];
      ServerRecoversPayload(rest);
      FullChunkFirst(payload, head, rest);
      FullChunkRead(head, AuthenticateChunks(rest), rest);
      assert payload == head + rest;
    }
  }

  lemma {:induction false} FullChunkFirst(payload: Text, head: Text, rest: Text)
    requires |head| == AUTHENTICATE_CHUNK && payload == head + rest
    ensures AuthenticateChunks(payload) == [head] + AuthenticateChunks(rest)
  {
    assert payload[..AUTHENTICATE_CHUNK] == head && payload[AUTHENTICATE_CHUNK..] == rest;
    assert |rest| % AUTHENTICATE_CHUNK == |payload| % AUTHENTICATE_CHUNK;
    if rest == [] {
      assert head == payload && ChunksFrom(rest) == [];
    }
    assert ChunksFrom(payload) == [head] + ChunksFrom(rest);
  }

  lemma {:induction false} FullChunkRead(head: Text, chunks: seq<Text>, rest: Text)
    requires |head| == AUTHENTICATE_CHUNK && ServerReads(chunks) == Some(Reading(rest, []))
    ensures ServerReads([head] + chunks) == Some(Reading(head + rest, []))
  {
    assert ([head] + chunks)[1..] == chunks && [head] != [[PLUS]];
  }
}
