/**
 What the readers do with the lines no printer writes: stray spaces and escapes, lines without a command, and
 empty lines (packages/gateway-irc/src/line.ts and the line reader of src/adapter.ts).
 */
module IrcReading {
  import opened Utf16
  import opened Options
  import opened IrcLine
  import opened IrcSplit
  import opened IrcWire
  import opened Utf8Length
  import IrcPieces

  const COLON: CodeUnit := ':' as int
  const COMMA: CodeUnit := ',' as int

  // ---- spaces ----

  function Spaces(n: nat): Text {
    seq(n, i => SPACE)
  }

  lemma {:induction false} TrimSpaces(n: nat, t: Text)
    ensures TrimStart(Spaces(n) + t) == TrimStart(t)
  {
    if n == 0 {
      assert Spaces(0) + t == t;
    } else {
      var all := Spaces(n) + t;
      assert all[0] == SPACE && IsSpace(SPACE) && all[1..] == Spaces(n - 1) + t;
      TrimSpaces(n - 1, t);
    }
  }

  /** More than one space behind the tags or the prefix reads as one. */
  lemma {:induction false} SpacesBehindBlock(sign: CodeUnit, block: Text, n: nat, tail: Text)
    requires (sign == AT || sign == COLON) && SPACE !in block
    ensures Parse([sign] + block + [SPACE] + (Spaces(n) + tail)) == Parse([sign] + block + [SPACE] + tail)
  {
    var many, one := [sign] + block + [SPACE] + (Spaces(n) + tail), [sign] + block + [SPACE] + tail;
    BlockRead(sign, block, Spaces(n) + tail);
    BlockRead(sign, block, tail);
    TrimSpaces(n, tail);
    if sign == AT {
      TagsFirst(many, |block| + 1);
      TagsFirst(one, |block| + 1);
    } else {
      PrefixRead(map[], many, |block| + 1);
      PrefixRead(map[], one, |block| + 1);
    }
  }

  /** A space where a parameter would begin is passed over, so no parameter but a trailing one is empty. */
  lemma {:induction false} SpacesBetweenParams(n: nat, rest: Text)
    ensures Params(Spaces(n) + rest) == Params(rest)
  {
    if n == 0 {
      assert Spaces(0) + rest == rest;
    } else {
      var t := Spaces(n) + rest;
      assert t == [] + [SPACE] + (Spaces(n - 1) + rest);
      IndexAfter([], SPACE, Spaces(n - 1) + rest);
      assert t[1..] == Spaces(n - 1) + rest;
      SpacesBetweenParams(n - 1, rest);
    }
  }

  // ---- escapes no writer needs ----

  /** A backslash before any other unit is dropped, and one at the end too; before a line end it alone goes. */
  lemma {:induction false} StrayEscapes(v: Text, u: CodeUnit, rest: Text)
    requires u != COLON && u != 's' as int && u != 'r' as int && u != 'n' as int && u != BACKSLASH
    ensures UnescapeTag([BACKSLASH, u] + rest) == [u] + UnescapeTag(rest)
    ensures UnescapeTag(EscapeTag(v) + [BACKSLASH]) == v
  {
    var t := [BACKSLASH, u] + rest;
    assert t[1..] == [u] + rest && t[2..] == rest && ([u] + rest)[1..] == rest;
    TrailingBackslash(v);
  }

  lemma {:induction false} TrailingBackslash(v: Text)
    ensures UnescapeTag(EscapeTag(v) + [BACKSLASH]) == v
  {
    if v == [] {
      assert EscapeTag(v) + [BACKSLASH] == [BACKSLASH];
      assert [BACKSLASH][1..] == [];
      assert UnescapeTag([BACKSLASH]) == UnescapeTag([BACKSLASH][1..]);
    } else {
      TrailingBackslash(v[1..]);
      UnitRead(v[0], EscapeTag(v[1..]) + [BACKSLASH]);
      assert EscapeTag(v) + [BACKSLASH] == EscapeUnit(v[0]) + (EscapeTag(v[1..]) + [BACKSLASH]);
      assert v == [v[0]] + v[1..];
    }
  }

  /** A tag named `__proto__` leaves the record as it was, whatever its value. */
  lemma {:induction false} ProtoIgnored(tags: map<Text, Text>, value: Text)
    ensures WithTag(tags, PROTO) == WithTag(tags, PROTO + [EQUALS] + value) == tags
  {
    IndexNone(PROTO, EQUALS);
    IndexAfter(PROTO, EQUALS, value);
    assert (PROTO + [EQUALS] + value)[..|PROTO|] == PROTO;
  }

  // ---- lines without a command ----

  /** Where the command would begin there is nothing or a space. */
  predicate Commandless(t: Text) {
    t == [] || t[0] == SPACE
  }

  lemma {:induction false} CommandThere(tags: map<Text, Text>, prefix: Option<Text>, t: Text)
    ensures Parsed(tags, prefix, t).None? <==> Commandless(t)
    ensures Parsed(tags, prefix, t).Some? ==>
              Parsed(tags, prefix, t).value.tags == tags && Parsed(tags, prefix, t).value.prefix == prefix
  {
    var end := IndexOf(t, [SPACE], 0);
    if t == [] {
      IndexNone(t, SPACE);
    } else if t[0] == SPACE {
      assert t == [] + [SPACE] + t[1..];
      IndexAfter([], SPACE, t[1..]);
    } else if end != -1 {
      MatchesUnit(t, SPACE, end);
    }
  }

  /** Tags or a prefix alone are no line. */
  lemma {:induction false} BlockAlone(sign: CodeUnit, block: Text)
    requires (sign == AT || sign == COLON) && SPACE !in block
    ensures Parse([sign] + block).None?
  {
    IndexNone([sign] + block, SPACE);
  }

  /** Without tags a line is refused exactly when its command is missing, at its start or behind its prefix. */
  lemma {:induction false} RefusedUntagged(block: Text, tail: Text)
    requires SPACE !in block
    ensures tail == [] || (tail[0] != AT && tail[0] != COLON) ==> (Parse(tail).None? <==> Commandless(tail))
    ensures Parse([COLON] + block + [SPACE] + tail).None? <==> Commandless(TrimStart(tail))
  {
    if tail == [] || (tail[0] != AT && tail[0] != COLON) {
      CommandThere(map[], None, tail);
    }
    PrefixedCommand(map[], block, tail);
  }

  lemma {:induction false} PrefixedCommand(tags: map<Text, Text>, block: Text, tail: Text)
    requires SPACE !in block
    ensures var t := [COLON] + block + [SPACE] + tail;
            t[0] != AT && (AfterTags(tags, t).None? <==> Commandless(TrimStart(tail)))
  {
    var t := [COLON] + block + [SPACE] + tail;
    BlockRead(COLON, block, tail);
    PrefixRead(tags, t, |block| + 1);
    CommandThere(tags, Some(t[1..|block| + 1]), TrimStart(tail));
  }

  /** Tags before a line never decide whether it is one. */
  lemma {:induction false} RefusedTagged(block: Text, tail: Text)
    requires SPACE !in block && (TrimStart(tail) == [] || TrimStart(tail)[0] != AT)
    ensures Parse([AT] + block + [SPACE] + tail).None? <==> Parse(TrimStart(tail)).None?
  {
    var t := [AT] + block + [SPACE] + tail;
    BlockRead(AT, block, tail);
    TagsFirst(t, |block| + 1);
    TagsDoNotDecide(TagsOf(t[1..|block| + 1]), TrimStart(tail));
  }

  /** Whether the rest is a line does not depend on the tags before it. */
  lemma {:induction false} TagsDoNotDecide(tags: map<Text, Text>, rest: Text)
    ensures AfterTags(tags, rest).None? <==> AfterTags(map[], rest).None?
  {
    if rest != [] && rest[0] == COLON {
      var end := IndexOf(rest, [SPACE], 0);
      if end != -1 {
        SpaceInside(rest, end);
        PrefixRead(tags, rest, end);
        PrefixRead(map[], rest, end);
        CommandThere(tags, Some(rest[1..end]), TrimStart(rest[end + 1..]));
        CommandThere(map[], Some(rest[1..end]), TrimStart(rest[end + 1..]));
      }
    } else {
      CommandThere(tags, None, rest);
      CommandThere(map[], None, rest);
    }
  }

  // ---- the line reader ----

  /** What a transport delivered: each line with its LF, then the start of one not yet ended. */
  function Delivered(raws: seq<Text>, rest: Text): Text {
    if raws == [] then rest else raws[0] + [LF] + Delivered(raws[1..], rest)
  }

  /** A line as handed on: one CR before the LF belongs to the line end. */
  ghost predicate HandedOn(line: Text, raw: Text) {
    raw == line + [CR] || (raw == line && (raw == [] || raw[|raw| - 1] != CR))
  }

  /** The lines that are not empty, each without its end, in order. */
  ghost predicate NonEmptyOf(lines: seq<Text>, raws: seq<Text>)
    decreases |raws|
  {
    if raws == [] then lines == []
    else if raws[0] == [] || raws[0] == [CR] then NonEmptyOf(lines, raws[1..])
    else lines != [] && HandedOn(lines[0], raws[0]) && NonEmptyOf(lines[1..], raws[1..])
  }

  /** However it is cut, the reader hands on exactly the delivered lines that are not empty, and keeps the rest. */
  lemma {:induction false} ReadsDelivered(raws: seq<Text>, rest: Text, chunks: seq<Text>)
    requires (forall i :: 0 <= i < |raws| ==> LF !in raws[i]) && LF !in rest
    requires Concat(chunks) == Delivered(raws, rest)
    ensures NonEmptyOf(Received([], chunks), raws) && Rest(Concat(chunks)) == rest
  {
    CutsDoNotMatter([], chunks);
    assert [] + Concat(chunks) == Concat(chunks);
    LinesDelivered(raws, rest);
  }

  lemma {:induction false} LinesDelivered(raws: seq<Text>, rest: Text)
    requires (forall i :: 0 <= i < |raws| ==> LF !in raws[i]) && LF !in rest
    ensures NonEmptyOf(Lines(Delivered(raws, rest)), raws) && Rest(Delivered(raws, rest)) == rest
  {
    if raws == [] {
      IndexNone(rest, LF);
    } else {
      var raw, tail := raws[0], Delivered(raws[1..], rest);
      var t := raw + [LF] + tail;
      IndexAfter(raw, LF, tail);
      LinesStep(t, |raw|);
      assert t[..|raw|] == raw && t[|raw| + 1..] == tail;
      LinesDelivered(raws[1..], rest);
      FirstHandedOn(raw, Lines(tail));
    }
  }

  lemma {:induction false} FirstHandedOn(raw: Text, more: seq<Text>)
    ensures var line := DropCr(raw);
            && HandedOn(line, raw) && (line == [] <==> raw == [] || raw == [CR])
            && ([line] + more)[1..] == more && [] + more == more
  {
    var line := DropCr(raw);
    if line != raw { assert raw == line + [CR]; }
  }

  // ---- what a send comes to ----

  predicate Blank(u: CodeUnit) {
    u == NUL || u == BEL || IsSpace(u)
  }

  lemma {:induction false} SplitsAtCommas(t: Text)
    ensures SplitOn(t, COMMA) == [t] <==> COMMA !in t
  {
    if COMMA !in t {
      SplitOfJoin([t], COMMA);
    } else {
      assert t in [t];
    }
  }

  /** Accepted is what a server reads as one middle parameter naming one target, without NUL, BEL or white space. */
  lemma {:induction false} OneTargetExactly(target: Text)
    ensures AcceptedTarget(target) <==>
              && Middle(target) && SplitOn(target, COMMA) == [target]
              && forall i :: 0 <= i < |target| ==> !Blank(target[i])
  {
    SplitsAtCommas(target);
    assert COMMA in target <==> exists i :: 0 <= i < |target| && target[i] == COMMA;
    assert IsSpace(SPACE);
    if Middle(target) && COMMA !in target && forall i :: 0 <= i < |target| ==> !Blank(target[i]) {
      assert forall i :: 0 <= i < |target| ==> target[i] != COMMA;
    }
  }

  /** A text holds something to send: a unit that is no NUL and no line break. */
  ghost predicate Visible(text: Text) {
    exists i :: 0 <= i < |text| && text[i] != NUL && !IsBreak(text[i])
  }

  lemma {:induction false} VisibleLeft(text: Text)
    ensures WithoutBreaks(WithoutNul(text)) != [] <==> Visible(text)
  {
    if text != [] {
      VisibleLeft(text[1..]);
      assert Visible(text) <==> Visible(text[1..]) || (text[0] != NUL && !IsBreak(text[0])) by {
        if i :| 0 <= i < |text[1..]| && text[1..][i] != NUL && !IsBreak(text[1..][i]) {
          assert text[i + 1] == text[1..][i];
        }
        if i :| 0 < i < |text| && text[i] != NUL && !IsBreak(text[i]) {
          assert text[1..][i - 1] == text[i];
        }
      }
      var rest := WithoutNul(text[1..]);
      assert WithoutNul(text) == (if text[0] == NUL then [] else [text[0]]) + rest;
      if text[0] == NUL {
        assert WithoutNul(text) == rest;
      } else {
        assert ([text[0]] + rest)[1..] == rest;
      }
    }
  }

  /** Sent if and only if the target is one token with room beside it, and the text holds something to send. */
  lemma {:induction false} SentExactly(text: Text, target: Text)
    ensures var room := ByteLength(Head(target) + CRLF) + DEFAULT_PREFIX_RESERVE_BYTES + 4 <= 512;
            && (Outbound(text, target).InvalidTarget? <==> !AcceptedTarget(target) || !room)
            && (Outbound(text, target).NothingVisible? <==> AcceptedTarget(target) && room && !Visible(text))
  {
    IrcPieces.RefusedExactly(text, target, DEFAULT_PREFIX_RESERVE_BYTES);
    if Split(text, target, DEFAULT_PREFIX_RESERVE_BYTES).Bodies? {
      BodiesSound(text, target, DEFAULT_PREFIX_RESERVE_BYTES);
      VisibleLeft(text);
      var bodies := Split(text, target, DEFAULT_PREFIX_RESERVE_BYTES).bodies;
      if bodies != [] { assert bodies[0] in bodies; }
    }
  }
}
