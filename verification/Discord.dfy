/**
 What a text goes out as on Discord: split first, escape each part, split a part again when its
 escaped body passes the cap (packages/gateway-discord/src/split.ts and src/adapter.ts).
 */
module Discord {
  import opened Utf16
  import opened Rejoining
  import opened Chunking

  datatype Format = Undeclared | Plain | Markdown | Html

  const DISCORD_MAX_MESSAGE: nat := 2000
  const SAFE_DISCORD_CHUNK: nat := 1900
  const BACKSLASH: CodeUnit := '\\' as int

  function SplitOptions(limit: nat, safeLimit: nat): Options {
    Options(limit, safeLimit, [[LF, LF], [LF]], Window, false, NewlineRun, false)
  }

  function SplitForDiscord(t: Text): seq<Text> {
    Split(t, SplitOptions(DISCORD_MAX_MESSAGE, SAFE_DISCORD_CHUNK)).parts
  }

  function SplitForEscapedDiscord(t: Text): seq<Text> {
    Split(t, SplitOptions(DISCORD_MAX_MESSAGE / 2, SAFE_DISCORD_CHUNK / 2)).parts
  }

  predicate OpensSpan(u: CodeUnit) {
    u == '*' as int || u == '_' as int || u == '`' as int || u == '~' as int
  }

  function EscapeMarkdown(t: Text): Text {
    if t == [] then []
    else
      (if t[0] == BACKSLASH || OpensSpan(t[0]) then [BACKSLASH, t[0]] else [t[0]]) + EscapeMarkdown(t[1..])
  }

  function BodyFor(format: Format, t: Text): Text {
    if format == Plain then EscapeMarkdown(t) else t
  }

  function BodiesFor(format: Format, parts: seq<Text>): (bodies: seq<Text>)
    ensures |bodies| == |parts|
    ensures forall i :: 0 <= i < |parts| ==> bodies[i] == BodyFor(format, parts[i])
  {
    seq(|parts|, i requires 0 <= i < |parts| => BodyFor(format, parts[i]))
  }

  function RenderParts(format: Format, parts: seq<Text>): seq<Text> {
    if parts == [] then []
    else
      var body := BodyFor(format, parts[0]);
      (if |body| <= DISCORD_MAX_MESSAGE then [body] else BodiesFor(format, SplitForEscapedDiscord(parts[0])))
      + RenderParts(format, parts[1..])
  }

  function RenderMessages(format: Format, t: Text): seq<Text> {
    RenderParts(format, SplitForDiscord(t))
  }

  // ---- how Discord reads a body ----

  /** A unit shown as typed, or one that opens a span. */
  datatype Glyph = Literal(u: CodeUnit) | Markup(u: CodeUnit)

  function Read(body: Text): seq<Glyph> {
    if body == [] then []
    else if body[0] == BACKSLASH && |body| > 1 then [Literal(body[1])] + Read(body[2..])
    else [if OpensSpan(body[0]) then Markup(body[0]) else Literal(body[0])] + Read(body[1..])
  }

  function Literals(t: Text): seq<Glyph> {
    if t == [] then [] else [Literal(t[0])] + Literals(t[1..])
  }

  /** An escaped part is read back as exactly the part, with no unit left to open a span. */
  lemma {:induction false} ReadEscaped(t: Text)
    ensures Read(EscapeMarkdown(t)) == Literals(t)
    ensures |t| <= |EscapeMarkdown(t)| <= 2 * |t|
  {
    if t != [] {
      ReadEscaped(t[1..]);
      var tail := EscapeMarkdown(t[1..]);
      if t[0] == BACKSLASH || OpensSpan(t[0]) {
        assert ([BACKSLASH, t[0]] + tail)[2..] == tail;
      } else {
        assert ([t[0]] + tail)[1..] == tail;
      }
    }
  }

  lemma {:induction false} LiteralsInjective(a: Text, b: Text)
    requires Literals(a) == Literals(b)
    ensures a == b
  {
    if a != [] && b != [] {
      assert Literals(a)[1..] == Literals(a[1..]) && Literals(b)[1..] == Literals(b[1..]);
      LiteralsInjective(a[1..], b[1..]);
      assert Literals(a)[0] == Literals(b)[0];
      assert a == [a[0]] + a[1..] && b == [b[0]] + b[1..];
    }
  }

  /** So a plain body determines its part. */
  lemma {:induction false} PlainBodyDetermines(a: Text, b: Text)
    requires BodyFor(Plain, a) == BodyFor(Plain, b)
    ensures a == b
  {
    ReadEscaped(a);
    ReadEscaped(b);
    LiteralsInjective(a, b);
  }

  // ---- the bodies ----

  /** The parts the bodies carry: each body is its part with the format applied, within the cap. */
  ghost predicate Carries(bodies: seq<Text>, parts: seq<Text>, format: Format) {
    && bodies == BodiesFor(format, parts)
    && forall b :: b in bodies ==> |b| <= DISCORD_MAX_MESSAGE
  }

  lemma {:induction false} HalvesFit(format: Format, part: Text)
    requires |part| <= DISCORD_MAX_MESSAGE && |BodyFor(format, part)| > DISCORD_MAX_MESSAGE
    ensures var halves := SplitForEscapedDiscord(part);
            halves != [] && Rejoins(halves, part, NewlineRun) && Carries(BodiesFor(format, halves), halves, format)
  {
    var o := SplitOptions(DISCORD_MAX_MESSAGE / 2, SAFE_DISCORD_CHUNK / 2);
    var halves := SplitForEscapedDiscord(part);
    UncutRejoins(part, o);
    PartsWithinLimit(part, o);
    forall b | b in BodiesFor(format, halves) ensures |b| <= DISCORD_MAX_MESSAGE {
      var i :| 0 <= i < |halves| && b == BodyFor(format, halves[i]);
      ReadEscaped(halves[i]);
    }
    assert part != [];
    assert halves == [] ==> exists gaps :: RejoinsBy(halves, gaps, part, NewlineRun);
  }

  lemma {:induction false} CarriesAppend(b1: seq<Text>, p1: seq<Text>, b2: seq<Text>, p2: seq<Text>, format: Format)
    requires Carries(b1, p1, format) && Carries(b2, p2, format)
    ensures Carries(b1 + b2, p1 + p2, format)
  {
  }

  lemma {:induction false} RenderedParts(format: Format, parts: seq<Text>, gaps: seq<Text>, t: Text)
    returns (sent: seq<Text>)
    requires RejoinsBy(parts, gaps, t, NewlineRun)
    requires forall i :: 0 <= i < |parts| ==> |parts[i]| <= DISCORD_MAX_MESSAGE
    ensures Rejoins(sent, t, NewlineRun) && Carries(RenderParts(format, parts), sent, format)
  {
    if parts == [] {
      sent := [];
      assert RejoinsBy([], [], t, NewlineRun);
    } else {
      var tail := Interleave(parts[1..], gaps[1..]);
      assert RejoinsBy(parts[1..], gaps[1..], tail, NewlineRun);
      var rest := RenderedParts(format, parts[1..], gaps[1..], tail);
      var body := BodyFor(format, parts[0]);
      var inner, bodies := [parts[0]], [body];
      assert gaps[0] in gaps;
      if |body| <= DISCORD_MAX_MESSAGE {
        RejoinsWhole(parts[0], NewlineRun);
        assert BodiesFor(format, inner) == bodies;
      } else {
        HalvesFit(format, parts[0]);
        inner := SplitForEscapedDiscord(parts[0]);
        bodies := BodiesFor(format, inner);
      }
      RejoinsNested(inner, parts[0], gaps[0], rest, tail, NewlineRun);
      CarriesAppend(bodies, inner, RenderParts(format, parts[1..]), rest, format);
      sent := inner + rest;
    }
  }

  /**
   Every body fits one message, and the bodies carry parts that rejoin to the text with only newline
   runs dropped at the cuts.
   */
  lemma {:induction false} MessagesCarryText(format: Format, t: Text) returns (sent: seq<Text>)
    ensures Rejoins(sent, t, NewlineRun) && Carries(RenderMessages(format, t), sent, format)
  {
    var o := SplitOptions(DISCORD_MAX_MESSAGE, SAFE_DISCORD_CHUNK);
    UncutRejoins(t, o);
    PartsWithinLimit(t, o);
    var parts := SplitForDiscord(t);
    var gaps :| RejoinsBy(parts, gaps, t, NewlineRun);
    assert forall i :: 0 <= i < |parts| ==> parts[i] in parts;
    sent := RenderedParts(format, parts, gaps, t);
  }

  /** Under `plain` each body alone is read as its part, literally. */
  lemma {:induction false} PlainReadsLiterally(t: Text) returns (sent: seq<Text>)
    ensures Rejoins(sent, t, NewlineRun) && |sent| == |RenderMessages(Plain, t)|
    ensures forall i :: 0 <= i < |sent| ==>
              && Read(RenderMessages(Plain, t)[i]) == Literals(sent[i])
              && |RenderMessages(Plain, t)[i]| <= DISCORD_MAX_MESSAGE
  {
    sent := MessagesCarryText(Plain, t);
    var bodies := RenderMessages(Plain, t);
    forall i | 0 <= i < |sent|
      ensures Read(bodies[i]) == Literals(sent[i]) && |bodies[i]| <= DISCORD_MAX_MESSAGE
    {
      ReadEscaped(sent[i]);
      assert bodies[i] in bodies;
    }
  }

  // ---- what goes out as it is ----

  /** The five characters of the escaping pattern: backslash, asterisk, underscore, backtick and tilde. */
  const ESCAPED: Text := [0x5c, 0x2a, 0x5f, 0x60, 0x7e]

  function Guarded(t: Text): Text {
    if t == [] then [] else (if t[0] in ESCAPED then [t[0]] else []) + Guarded(t[1..])
  }

  /** One backslash for each of them and none besides: a text without them is its own body. */
  lemma {:induction false} EscapesNoMore(t: Text)
    ensures |EscapeMarkdown(t)| == |t| + |Guarded(t)|
    ensures Guarded(t) == [] ==> EscapeMarkdown(t) == t
  {
    if t != [] {
      EscapesNoMore(t[1..]);
    }
  }

  /** A part whose body fits goes out as that one body, so splitting again is left to the others. */
  lemma {:induction false} FittingPartsStayWhole(format: Format, parts: seq<Text>)
    requires forall i :: 0 <= i < |parts| ==> |BodyFor(format, parts[i])| <= DISCORD_MAX_MESSAGE
    ensures RenderParts(format, parts) == BodiesFor(format, parts)
  {
    if parts != [] {
      FittingPartsStayWhole(format, parts[1..]);
      assert BodiesFor(format, parts) == [BodyFor(format, parts[0])] + BodiesFor(format, parts[1..]);
    }
  }

  /** A format Discord parses goes out as the split parts, unit for unit. */
  lemma {:induction false} MarkupGoesVerbatim(format: Format, t: Text)
    requires format != Plain
    ensures RenderMessages(format, t) == SplitForDiscord(t)
  {
    var parts := SplitForDiscord(t);
    PartsWithinLimit(t, SplitOptions(DISCORD_MAX_MESSAGE, SAFE_DISCORD_CHUNK));
    assert forall i :: 0 <= i < |parts| ==> parts[i] in parts;
    FittingPartsStayWhole(format, parts);
  }

  /** A text of at most 2000 units whose markers leave room for their backslashes is one message. */
  lemma {:induction false} ShortTextIsOneMessage(t: Text)
    requires 0 < |t| && |t| + |Guarded(t)| <= DISCORD_MAX_MESSAGE
    ensures |RenderMessages(Plain, t)| == 1 && Read(RenderMessages(Plain, t)[0]) == Literals(t)
  {
    EscapesNoMore(t);
    ReadEscaped(t);
    assert SplitForDiscord(t) == [t];
    FittingPartsStayWhole(Plain, [t]);
  }
}
