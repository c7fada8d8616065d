/**
 Which bodies a text goes out as on IRC: every line apart from the next, and each body filled as far as the
 next code point allows (packages/gateway-irc/src/split.ts).
 */
module IrcPieces {
  import opened Utf16
  import opened Packing
  import opened Utf8Length
  import opened IrcSplit

  // ---- the lines ----

  predicate LineBreak(b: Text) {
    b == [CR, LF] || b == [LF] || b == [CR]
  }

  function JoinLines(lines: seq<Text>, breaks: seq<Text>): Text
    requires |lines| == |breaks| + 1
  {
    if breaks == [] then lines[0] else lines[0] + (breaks[0] + JoinLines(lines[1..], breaks[1..]))
  }

  /** A CR with an LF right after it is no break of its own. */
  ghost predicate BreaksWhole(lines: seq<Text>, breaks: seq<Text>)
    requires |lines| == |breaks| + 1
  {
    && (forall i :: 0 <= i < |breaks| ==> LineBreak(breaks[i]))
    && (forall i :: 0 <= i < |breaks| - 1 ==> !(breaks[i] == [CR] && lines[i + 1] == [] && breaks[i + 1] == [LF]))
  }

  lemma {:induction false} FirstBreak(t: Text, n: nat) returns (b: Text)
    requires n < |t| && IsBreak(t[n])
    ensures LineBreak(b) && |b| == BreakWidth(t, n) && t == t[..n] + (b + t[n + |b|..])
    ensures b == [CR] && n + 1 < |t| ==> t[n + 1] != LF
  {
    b := t[n..n + BreakWidth(t, n)];
  }

  lemma {:induction false} JoinedHead(lines: seq<Text>, breaks: seq<Text>)
    requires |lines| == |breaks| + 1 && breaks != [] && lines[0] == [] && breaks[0] == [LF]
    ensures JoinLines(lines, breaks) != [] && JoinLines(lines, breaks)[0] == LF
  {
  }

  /** A first line and its break go before the lines of the rest. */
  lemma {:induction false} LineBefore(line: Text, b: Text, lines: seq<Text>, breaks: seq<Text>)
    requires |lines| == |breaks| + 1 && LineBreak(b) && BreaksWhole(lines, breaks)
    requires b == [CR] && JoinLines(lines, breaks) != [] ==> JoinLines(lines, breaks)[0] != LF
    ensures BreaksWhole([line] + lines, [b] + breaks)
    ensures JoinLines([line] + lines, [b] + breaks) == line + (b + JoinLines(lines, breaks))
  {
    var ls, bs := [line] + lines, [b] + breaks;
    assert ls[1..] == lines && bs[1..] == breaks;
    forall i | 0 <= i < |bs| - 1 ensures !(bs[i] == [CR] && ls[i + 1] == [] && bs[i + 1] == [LF]) {
      if i > 0 {
        assert bs[i] == breaks[i - 1] && bs[i + 1] == breaks[i] && ls[i + 1] == lines[i];
      } else if lines[0] == [] && breaks[0] == [LF] {
        JoinedHead(lines, breaks);
      }
    }
  }

  lemma {:induction false} SplitStep(t: Text, n: nat, width: nat)
    requires n == BreakAt(t) && n < |t| && width == BreakWidth(t, n)
    ensures SplitBreaks(t) == [t[..n]] + SplitBreaks(t[n + width..])
  {
  }

  /** The lines with one break between any two are the text, and no line holds a break. */
  lemma {:induction false} LinesBetweenBreaks(t: Text) returns (breaks: seq<Text>)
    ensures |SplitBreaks(t)| == |breaks| + 1
    ensures JoinLines(SplitBreaks(t), breaks) == t && BreaksWhole(SplitBreaks(t), breaks)
    decreases |t|
  {
    var n := BreakAt(t);
    if n == |t| {
      breaks := [];
    } else {
      var b := FirstBreak(t, n);
      var tail := t[n + |b|..];
      var rest := LinesBetweenBreaks(tail);
      breaks := [b] + rest;
      SplitStep(t, n, |b|);
      LineBefore(t[..n], b, SplitBreaks(tail), rest);
    }
  }

  /** A NUL is dropped wherever it stands, and nothing else is. */
  lemma {:induction false} NulsDropped(a: Text, b: Text)
    ensures WithoutNul(a + [NUL] + b) == WithoutNul(a + b)
    ensures NUL !in a ==> WithoutNul(a) == a
  {
    if a == [] {
      assert a + [NUL] + b == [NUL] + b && ([NUL] + b)[1..] == b && a + b == b;
    } else {
      NulsDropped(a[1..], b);
      assert (a + [NUL] + b)[1..] == a[1..] + [NUL] + b && (a + b)[1..] == a[1..] + b;
    }
  }

  // ---- the pieces of a line ----

  /** The pieces join to the line, and no piece has room for the code point that opens the next. */
  ghost predicate Fills(pieces: seq<Text>, line: Text, budget: nat) {
    && Concat(pieces) == line
    && (forall k :: 0 <= k < |pieces| ==> Piece(pieces[k], budget))
    && (forall k :: 0 <= k < |pieces| - 1 ==> NoRoom(pieces[k], pieces[k + 1], budget))
  }

  predicate NoRoom(piece: Text, next: Text, budget: nat) {
    CodePoints(next) != [] && ByteLength(piece) + CodePointBytes(CodePoints(next)[0]) > budget
  }

  lemma {:induction false} PiecesFill(line: Text, budget: nat)
    requires budget >= MAX_CODE_POINT_BYTES
    ensures Fills(CutLine(line, budget), line, budget)
  {
    var cps := CodePoints(line);
    var groups := Groups(cps, [], budget, CodePointBytes);
    CutLineSound(line, budget);
    CodePointsCanonical(line);
    GroupsPacked(cps, [], budget, CodePointBytes);
    assert [] + cps == cps;
    forall k | 0 <= k < |groups| - 1 ensures NoRoom(Concat(groups[k]), Concat(groups[k + 1]), budget) {
      GroupWithin(groups, cps, k);
      GroupWithin(groups, cps, k + 1);
      ReadCanonical(groups[k]);
      ReadCanonical(groups[k + 1]);
      assert groups[k + 1] in groups;
    }
  }

  /** A blank line has no piece, so skipping it drops nothing. */
  lemma {:induction false} BlankLine(budget: nat)
    ensures CutLine([], budget) == []
  {
    assert CodePoints([]) == [];
  }

  lemma {:induction false} LinesCut(lines: seq<Text>, budget: nat) returns (perLine: seq<seq<Text>>)
    requires budget >= MAX_CODE_POINT_BYTES
    ensures |perLine| == |lines| && Flatten(perLine) == CutLines(lines, budget)
    ensures forall i :: 0 <= i < |lines| ==> Fills(perLine[i], lines[i], budget)
  {
    if lines == [] {
      perLine := [];
    } else {
      var rest := LinesCut(lines[1..], budget);
      perLine := [CutLine(lines[0], budget)] + rest;
      PiecesFill(lines[0], budget);
      BlankLine(budget);
      assert perLine[1..] == rest;
    }
  }

  /**
   The bodies go line by line: those of one line join to it, none holds a unit of another line, and each is
   filled until the next code point would pass the budget.
   */
  lemma {:induction false} BodiesByLine(text: Text, target: Text, reserve: nat) returns (perLine: seq<seq<Text>>)
    requires Split(text, target, reserve).Bodies?
    ensures var lines := SplitBreaks(WithoutNul(text));
            && |perLine| == |lines| && Flatten(perLine) == Split(text, target, reserve).bodies
            && forall i :: 0 <= i < |lines| ==> Fills(perLine[i], lines[i], Budget(target, reserve))
  {
    perLine := LinesCut(SplitBreaks(WithoutNul(text)), Budget(target, reserve));
  }

  /** Refused exactly when the command words leave under four bytes of the 512 beside CRLF and the reserve. */
  lemma {:induction false} RefusedExactly(text: Text, target: Text, reserve: nat)
    ensures Split(text, target, reserve).TargetTooLong? <==>
              ByteLength(Head(target) + CRLF) + reserve + 4 > 512
  {
    CommandBytes(target, []);
    assert Head(target) + [] + CRLF == Head(target) + CRLF;
    assert CodePoints([]) == [];
  }
}
