/**
 The wire: the PRIVMSG payload of a send and the line reader of the socket, cut anywhere by the
 transport (packages/gateway-irc/src/adapter.ts).
 */
module IrcWire {
  import opened Utf16
  import opened Options
  import opened IrcSplit
  import opened Utf8Length
  import IrcLine

  const COLON: CodeUnit := ':' as int
  const COMMA: CodeUnit := ',' as int

  /** `TARGET` and `hasControlByte`: one token that carries no second command. */
  predicate AcceptedTarget(t: Text) {
    && t != []
    && t[0] != COLON
    && forall i :: 0 <= i < |t| ==> !IsSpace(t[i]) && t[i] != COMMA && t[i] != NUL && t[i] != BEL
  }

  function Frame(target: Text, body: Text): Text {
    Head(target) + body + CRLF
  }

  function Frames(target: Text, bodies: seq<Text>): Text {
    if bodies == [] then [] else Frame(target, bodies[0]) + Frames(target, bodies[1..])
  }

  datatype Outcome = Sent(payload: Text) | InvalidTarget | NothingVisible

  /** What `sendMessage` writes for a text that is not empty, on a connected socket. */
  function Outbound(text: Text, target: Text): Outcome {
    if !AcceptedTarget(target) then InvalidTarget
    else match Split(text, target, DEFAULT_PREFIX_RESERVE_BYTES)
      case TargetTooLong(_) => InvalidTarget
      case Bodies(bodies) => if bodies == [] then NothingVisible else Sent(Frames(target, bodies))
  }

  // ---- reading lines ----

  function DropCr(raw: Text): Text {
    if raw != [] && raw[|raw| - 1] == CR then raw[..|raw| - 1] else raw
  }

  function LineBefore(buffered: Text, at: nat): seq<Text>
    requires at < |buffered|
  {
    if DropCr(buffered[..at]) == [] then [] else [DropCr(buffered[..at])]
  }

  /** The lines complete in a buffer, without their ends and without the empty ones. */
  function Lines(buffered: Text): seq<Text> {
    var at := IndexOf(buffered, [LF], 0);
    if at == -1 then []
    else
      MatchesUnit(buffered, LF, at);
      LineBefore(buffered, at) + Lines(buffered[at + 1..])
  }

  /** What waits for the rest of its line. */
  function Rest(buffered: Text): (r: Text)
    ensures LF !in r
  {
    var at := IndexOf(buffered, [LF], 0);
    if at == -1 then
      NoUnit(buffered, LF);
      buffered
    else
      MatchesUnit(buffered, LF, at);
      Rest(buffered[at + 1..])
  }

  lemma {:induction false} NoUnit(t: Text, u: CodeUnit)
    requires IndexOf(t, [u], 0) == -1
    ensures u !in t
  {
    forall i | 0 <= i < |t| ensures t[i] != u {
      MatchesUnit(t, u, i);
    }
  }

  /** Every `data` event in turn. */
  function Received(buffered: Text, chunks: seq<Text>): seq<Text>
    decreases |chunks|
  {
    if chunks == [] then []
    else Lines(buffered + chunks[0]) + Received(Rest(buffered + chunks[0]), chunks[1..])
  }

  /** What was emitted and what is left make the lines and the rest of the whole. */
  predicate Progress(lines: seq<Text>, buffered: Text, all: Text) {
    lines + Lines(buffered) == Lines(all) && Rest(buffered) == Rest(all)
  }

  /** The buffer `readLines` keeps between two `data` events. */
  class LineReader {
    var buffered: Text
    ghost var received: Text        // everything the socket delivered
    ghost var emitted: seq<Text>    // every line handed on

    /** However the transport cut it, what was handed on are the lines of what was delivered. */
    ghost predicate Valid()
      reads this
    {
      emitted == Lines(received) && buffered == Rest(received)
    }

    constructor ()
      ensures Valid() && buffered == []
    {
      buffered, received, emitted := [], [], [];
      IndexNone([], LF);
    }

    method OnData(chunk: Text) returns (lines: seq<Text>)
      requires Valid()
      modifies this
      ensures Valid() && received == old(received) + chunk && emitted == old(emitted) + lines
      ensures lines == Lines(old(buffered) + chunk)
    {
      LinesAppend(received, chunk);
      lines := TakeLines(chunk);
      received, emitted := received + chunk, emitted + lines;
    }

    method TakeLines(chunk: Text) returns (lines: seq<Text>)
      modifies this`buffered
      ensures lines == Lines(old(buffered) + chunk) && buffered == Rest(old(buffered) + chunk)
    {
      lines := [];
      buffered := buffered + chunk;
      ghost var all := buffered;
      var at := IndexOf(buffered, [LF], 0);
      while at != -1
        invariant at == IndexOf(buffered, [LF], 0)
        invariant Progress(lines, buffered, all)
        decreases |buffered|
      {
        LinesProgress(lines, buffered, at, all);
        var raw := DropCr(buffered[..at]);
        ghost var taken := lines + LineBefore(buffered, at);
        if raw != [] { lines := lines + [raw]; } else { assert lines + [] == lines; }
        assert lines == taken;
        buffered := buffered[at + 1..];
        at := IndexOf(buffered, [LF], 0);
      }
      LinesOver(lines, buffered, all);
    }
  }

  /** One line taken: what was emitted and what is left still make the lines of the whole. */
  lemma {:induction false} LinesProgress(lines: seq<Text>, buffered: Text, at: int, all: Text)
    requires at == IndexOf(buffered, [LF], 0) && at != -1
    requires Progress(lines, buffered, all)
    ensures at < |buffered|
    ensures Progress(lines + LineBefore(buffered, at), buffered[at + 1..], all)
  {
    LinesStep(buffered, at);
    assert lines + (LineBefore(buffered, at) + Lines(buffered[at + 1..]))
        == lines + LineBefore(buffered, at) + Lines(buffered[at + 1..]);
  }

  lemma {:induction false} LinesOver(lines: seq<Text>, buffered: Text, all: Text)
    requires IndexOf(buffered, [LF], 0) == -1 && Progress(lines, buffered, all)
    ensures lines == Lines(all) && buffered == Rest(all) && LF !in buffered
  {
  }

  lemma {:induction false} LinesStep(buffered: Text, at: int)
    requires at == IndexOf(buffered, [LF], 0) && at != -1
    ensures at < |buffered|
    ensures Lines(buffered) == LineBefore(buffered, at) + Lines(buffered[at + 1..])
    ensures Rest(buffered) == Rest(buffered[at + 1..])
  {
    MatchesUnit(buffered, LF, at);
  }

  // ---- the transport may cut anywhere ----

  lemma {:induction false} IndexInPrefix(a: Text, b: Text, u: CodeUnit)
    requires IndexOf(a, [u], 0) != -1
    ensures IndexOf(a + b, [u], 0) == IndexOf(a, [u], 0) < |a|
  {
    var at := IndexOf(a, [u], 0);
    MatchesUnit(a, u, at);
    MatchesUnit(a + b, u, at);
    forall i | 0 <= i < at ensures !MatchesAt(a + b, [u], i) {
      MatchesUnit(a, u, i);
      MatchesUnit(a + b, u, i);
    }
    IndexIs(a + b, [u], 0, at);
  }

  lemma {:induction false} SameFirstLine(a: Text, b: Text, at: nat)
    requires at == IndexOf(a, [LF], 0) && at < |a|
    ensures Lines(a + b) == LineBefore(a, at) + Lines(a[at + 1..] + b)
    ensures Rest(a + b) == Rest(a[at + 1..] + b)
  {
    IndexInPrefix(a, b, LF);
    LinesStep(a + b, at);
    assert (a + b)[..at] == a[..at] && (a + b)[at + 1..] == a[at + 1..] + b;
  }

  lemma {:induction false} LinesAppend(a: Text, b: Text)
    ensures Lines(a + b) == Lines(a) + Lines(Rest(a) + b)
    ensures Rest(a + b) == Rest(Rest(a) + b)
    decreases |a|
  {
    var at := IndexOf(a, [LF], 0);
    if at == -1 {
      assert Lines(a) == [] && Rest(a) == a;
    } else {
      var tail := a[at + 1..];
      SameFirstLine(a, b, at);
      LinesStep(a, at);
      LinesAppend(tail, b);
      Regroup(LineBefore(a, at), Lines(tail), Lines(Rest(tail) + b));
    }
  }

  lemma {:induction false} Regroup<T>(a: seq<T>, b: seq<T>, c: seq<T>)
    ensures a + (b + c) == (a + b) + c
  {
  }

  /** Whatever the cuts, the lines are those of the whole. */
  lemma {:induction false} CutsDoNotMatter(buffered: Text, chunks: seq<Text>)
    requires LF !in buffered
    ensures Received(buffered, chunks) == Lines(buffered + Concat(chunks))
    decreases |chunks|
  {
    if chunks == [] {
      assert buffered + [] == buffered;
      IndexNone(buffered, LF);
    } else {
      var now, later := buffered + chunks[0], Concat(chunks[1..]);
      assert now + later == buffered + Concat(chunks);
      LinesAppend(now, later);
      CutsDoNotMatter(Rest(now), chunks[1..]);
      assert Received(buffered, chunks) == Lines(now) + Received(Rest(now), chunks[1..]);
    }
  }

  // ---- the round trip ----

  lemma {:induction false} FrameLine(target: Text, body: Text, tail: Text)
    requires AcceptedTarget(target) && OneLine(body)
    ensures Lines(Frame(target, body) + tail) == [Head(target) + body] + Lines(tail)
  {
    var line := Head(target) + body;
    var t := Frame(target, body) + tail;
    assert LF !in target && LF !in Head(target) && LF !in body && LF !in line;
    assert t == (line + [CR]) + [LF] + tail;
    IndexAfter(line + [CR], LF, tail);
    var at := |line| + 1;
    LinesStep(t, at);
    assert t[..at] == line + [CR] && t[at + 1..] == tail;
    assert DropCr(line + [CR]) == line;
  }

  function Heads(target: Text, bodies: seq<Text>): (lines: seq<Text>)
    ensures |lines| == |bodies| && forall i :: 0 <= i < |bodies| ==> lines[i] == Head(target) + bodies[i]
  {
    seq(|bodies|, i requires 0 <= i < |bodies| => Head(target) + bodies[i])
  }

  lemma {:induction false} HeadsStep(target: Text, bodies: seq<Text>)
    requires bodies != []
    ensures Heads(target, bodies) == [Head(target) + bodies[0]] + Heads(target, bodies[1..])
  {
  }

  lemma {:induction false} FramesLines(target: Text, bodies: seq<Text>)
    requires AcceptedTarget(target) && forall b :: b in bodies ==> OneLine(b)
    ensures Lines(Frames(target, bodies)) == Heads(target, bodies)
  {
    if bodies == [] {
      IndexNone([], LF);
    } else {
      assert OneLine(bodies[0]);
      FrameLine(target, bodies[0], Frames(target, bodies[1..]));
      FramesLines(target, bodies[1..]);
      HeadsStep(target, bodies);
    }
  }

  /** A line of the payload parses to the PRIVMSG it stands for. */
  lemma {:induction false} HeadParses(target: Text, body: Text)
    requires AcceptedTarget(target)
    ensures IrcLine.Parse(Head(target) + body) == Some(IrcLine.Line(map[], None, PRIVMSG_WORD, [target, body]))
  {
    var m := IrcLine.Message([], None, PRIVMSG_WORD, [target], Some(body));
    assert IrcLine.Command(PRIVMSG_WORD);
    assert SPACE !in target;
    assert IrcLine.Middle(target);
    var words := IrcLine.Words(m);
    assert words == [target, [COLON] + body];
    assert words[1..] == [[COLON] + body];
    assert JoinWith(words[1..], SPACE) == [COLON] + body;
    assert JoinWith(words, SPACE) == target + [SPACE] + ([COLON] + body);
    assert IrcLine.Print(m) == Head(target) + body;
    IrcLine.UntaggedRead(m);
    assert IrcLine.Upper(PRIVMSG_WORD) == PRIVMSG_WORD;
    assert IrcLine.ParamsOf(m) == [target, body];
  }

  // ---- what the socket's encoder does to a text ----

  const REPLACEMENT: CodeUnit := 0xFFFD

  function CarriedUnit(t: Text, i: nat): CodeUnit
    requires i < |t|
  {
    if PairedAt(t, i) then t[i] else REPLACEMENT
  }

  /** A text once encoded as UTF-8 and decoded again: every lone surrogate is the replacement character. */
  function Carried(t: Text): (r: Text)
    ensures |r| == |t| && forall i :: 0 <= i < |t| ==> r[i] == CarriedUnit(t, i)
  {
    seq(|t|, i requires 0 <= i < |t| => CarriedUnit(t, i))
  }

  lemma {:induction false} CarriedWhole(t: Text)
    ensures Carried(t) == t <==> WellFormed(t)
  {
    if Carried(t) == t {
      forall i | 0 <= i < |t|
        ensures PairedAt(t, i)
      {
        assert Carried(t)[i] == CarriedUnit(t, i);
      }
    }
  }

  lemma {:induction false} CarriedAppend(a: Text, b: Text)
    requires !Joint(a, b)
    ensures Carried(a + b) == Carried(a) + Carried(b)
  {
    forall i | 0 <= i < |a + b|
      ensures Carried(a + b)[i] == (Carried(a) + Carried(b))[i]
    {
      if i < |a| {
        assert PairedAt(a + b, i) <==> PairedAt(a, i);
      } else {
        assert PairedAt(a + b, i) <==> PairedAt(b, i - |a|);
      }
    }
  }

  lemma {:induction false} CarriedHead(target: Text)
    ensures Carried(Head(target)) == Head(Carried(target))
  {
    var before, after: Text := PRIVMSG_WORD + [SPACE], [SPACE, COLON];
    assert WellFormed(before) && WellFormed(after);
    CarriedWhole(before);
    CarriedWhole(after);
    CarriedAppend(before, target);
    CarriedAppend(before + target, after);
  }

  lemma {:induction false} CarriedFrame(target: Text, body: Text)
    ensures Carried(Frame(target, body)) == Frame(Carried(target), Carried(body))
  {
    CarriedHead(target);
    CarriedAppend(Head(target), body);
    assert WellFormed(CRLF);
    CarriedWhole(CRLF);
    CarriedAppend(Head(target) + body, CRLF);
  }

  function CarriedAll(bodies: seq<Text>): (r: seq<Text>)
    ensures |r| == |bodies| && forall i :: 0 <= i < |bodies| ==> r[i] == Carried(bodies[i])
  {
    seq(|bodies|, i requires 0 <= i < |bodies| => Carried(bodies[i]))
  }

  lemma {:induction false} CarriedFrames(target: Text, bodies: seq<Text>)
    ensures Carried(Frames(target, bodies)) == Frames(Carried(target), CarriedAll(bodies))
  {
    if bodies != [] {
      var first, rest := Frame(target, bodies[0]), Frames(target, bodies[1..]);
      assert first[|first| - 1] == LF;
      CarriedAppend(first, rest);
      CarriedFrame(target, bodies[0]);
      CarriedFrames(target, bodies[1..]);
      assert CarriedAll(bodies)[1..] == CarriedAll(bodies[1..]);
    } else {
      assert CarriedAll(bodies) == [];
    }
  }

  lemma {:induction false} CarriedStaysLegal(target: Text, bodies: seq<Text>)
    requires AcceptedTarget(target) && forall b :: b in bodies ==> OneLine(b)
    ensures AcceptedTarget(Carried(target)) && forall b :: b in CarriedAll(bodies) ==> OneLine(b)
  {
    assert !IsSpace(REPLACEMENT);
    assert Carried(target)[0] == CarriedUnit(target, 0);
    forall i | 0 <= i < |bodies|
      ensures OneLine(Carried(bodies[i]))
    {
      assert bodies[i] in bodies;
    }
  }

  /** A well-formed text to a well-formed target reaches the wire unchanged, and so does each of its bodies. */
  lemma {:induction false} WellFormedIsCarried(text: Text, target: Text)
    requires WellFormed(text) && WellFormed(target) && Outbound(text, target).Sent?
    ensures Carried(Outbound(text, target).payload) == Outbound(text, target).payload
    ensures var bodies := Split(text, target, DEFAULT_PREFIX_RESERVE_BYTES).bodies;
            Carried(target) == target && CarriedAll(bodies) == bodies
  {
    var bodies := Split(text, target, DEFAULT_PREFIX_RESERVE_BYTES).bodies;
    BodiesDecodeAlone(text, target, DEFAULT_PREFIX_RESERVE_BYTES);
    CarriedWhole(target);
    forall i | 0 <= i < |bodies|
      ensures CarriedAll(bodies)[i] == bodies[i]
    {
      assert bodies[i] in bodies;
      CarriedWhole(bodies[i]);
    }
    assert CarriedAll(bodies) == bodies;
    CarriedFrames(target, bodies);
  }

  /**
   The wire round trip: for every text and accepted target, lone surrogates included, however the
   transport cuts the encoded payload, the reader hands on exactly one line per body, and it parses to
   PRIVMSG with the target and the body the encoder carried.
   */
  lemma {:induction false} WireRoundTrip(text: Text, target: Text, chunks: seq<Text>)
    requires Outbound(text, target).Sent? && Concat(chunks) == Carried(Outbound(text, target).payload)
    ensures var bodies := CarriedAll(Split(text, target, DEFAULT_PREFIX_RESERVE_BYTES).bodies);
            var lines := Received([], chunks);
            && |lines| == |bodies|
            && forall i :: 0 <= i < |bodies| ==>
                 IrcLine.Parse(lines[i])
                 == Some(IrcLine.Line(map[], None, PRIVMSG_WORD, [Carried(target), bodies[i]]))
  {
    var bodies := Split(text, target, DEFAULT_PREFIX_RESERVE_BYTES).bodies;
    BodiesSound(text, target, DEFAULT_PREFIX_RESERVE_BYTES);
    CarriedFrames(target, bodies);
    CarriedStaysLegal(target, bodies);
    FramesRead(Carried(target), CarriedAll(bodies), chunks);
  }

  lemma {:induction false} FramesRead(target: Text, bodies: seq<Text>, chunks: seq<Text>)
    requires AcceptedTarget(target) && (forall b :: b in bodies ==> OneLine(b))
    requires Concat(chunks) == Frames(target, bodies)
    ensures var lines := Received([], chunks);
            && |lines| == |bodies|
            && forall i :: 0 <= i < |bodies| ==>
                 IrcLine.Parse(lines[i]) == Some(IrcLine.Line(map[], None, PRIVMSG_WORD, [target, bodies[i]]))
  {
    CutsDoNotMatter([], chunks);
    assert [] + Concat(chunks) == Concat(chunks);
    FramesLines(target, bodies);
    forall i | 0 <= i < |bodies|
      ensures IrcLine.Parse(Heads(target, bodies)[i])
           == Some(IrcLine.Line(map[], None, PRIVMSG_WORD, [target, bodies[i]]))
    {
      HeadParses(target, bodies[i]);
    }
  }
}
