/** Bytes of a string under UTF-8, as `Buffer.byteLength` counts them. */
module Utf8Length {
  import opened Utf16
  import opened Packing

  predicate PairAt(t: Text, i: nat) {
    i + 1 < |t| && IsHigh(t[i]) && IsLow(t[i + 1])
  }

  /** The string's iterator: a surrogate pair is one step, anything else is one unit. */
  function CodePoints(t: Text): seq<Text> {
    if t == [] then []
    else if PairAt(t, 0) then [t[..2]] + CodePoints(t[2..])
    else [t[..1]] + CodePoints(t[1..])
  }

  /** A lone surrogate is written as U+FFFD, three bytes. */
  function CodePointBytes(cp: Text): nat {
    if cp == [] then 0
    else if |cp| > 1 then 4
    else if cp[0] < 0x80 then 1
    else if cp[0] < 0x800 then 2
    else 3
  }

  function ByteLength(t: Text): nat {
    Weigh(CodePoints(t), CodePointBytes)
  }

  predicate IsCodePoint(cp: Text) {
    |cp| == 1 || (|cp| == 2 && IsHigh(cp[0]) && IsLow(cp[1]))
  }

  /** A run of steps of the iterator: no two neighbours would read as one pair. */
  ghost predicate Canonical(cps: seq<Text>) {
    && (forall i :: 0 <= i < |cps| ==> IsCodePoint(cps[i]))
    && (forall i :: 0 <= i < |cps| - 1 ==> Separate(cps[i], cps[i + 1]))
  }

  predicate Separate(a: Text, b: Text) {
    !(|a| == 1 && IsHigh(a[0]) && |b| > 0 && IsLow(b[0]))
  }

  lemma {:induction false} CodePointsCanonical(t: Text)
    ensures Canonical(CodePoints(t)) && Concat(CodePoints(t)) == t
    ensures t != [] ==> CodePoints(t) != [] && CodePoints(t)[0] <= t
  {
    if t != [] {
      var n := if PairAt(t, 0) then 2 else 1;
      CodePointsCanonical(t[n..]);
      var rest := CodePoints(t[n..]);
      var cps := CodePoints(t);
      assert cps == [t[..n]] + rest && t == t[..n] + t[n..];
      if rest != [] {
        assert rest[0][0] == t[n];
      }
      forall i | 0 <= i < |cps| - 1 ensures Separate(cps[i], cps[i + 1]) {
        if i > 0 { assert Separate(rest[i - 1], rest[i]); }
      }
    }
  }

  /** The iterator reads a canonical run back as it is. */
  lemma {:induction false} ReadCanonical(cps: seq<Text>)
    requires Canonical(cps)
    ensures CodePoints(Concat(cps)) == cps
  {
    if cps != [] {
      var cp, rest := cps[0], Concat(cps[1..]);
      var t := cp + rest;
      assert IsCodePoint(cp);
      assert Canonical(cps[1..]) by {
        forall i | 0 <= i < |cps| - 2 ensures Separate(cps[1..][i], cps[1..][i + 1]) {
          assert Separate(cps[i + 1], cps[i + 2]);
        }
      }
      ReadCanonical(cps[1..]);
      if |cps| > 1 {
        assert Separate(cps[0], cps[1]) && IsCodePoint(cps[1]);
        assert rest == cps[1] + Concat(cps[1..][1..]);
        assert rest[0] == cps[1][0];
      } else {
        assert rest == [];
      }
      assert t[..|cp|] == cp && t[|cp|..] == rest;
      assert PairAt(t, 0) <==> |cp| == 2;
    }
  }

  lemma {:induction false} CanonicalAppend(a: seq<Text>, b: seq<Text>)
    requires Canonical(a) && Canonical(b)
    requires a != [] && b != [] ==> Separate(a[|a| - 1], b[0])
    ensures Canonical(a + b)
  {
  }

  predicate Joint(a: Text, b: Text) {
    a != [] && b != [] && IsHigh(a[|a| - 1]) && IsLow(b[0])
  }

  predicate EndsWith(t: Text, u: CodeUnit) {
    t != [] && t[|t| - 1] == u
  }

  lemma {:induction false} LastCodePoint(t: Text)
    requires t != []
    ensures CodePoints(t) != [] && EndsWith(CodePoints(t)[|CodePoints(t)| - 1], t[|t| - 1])
  {
    var n := if PairAt(t, 0) then 2 else 1;
    if |t| > n {
      LastCodePoint(t[n..]);
      assert CodePoints(t) == [t[..n]] + CodePoints(t[n..]);
    } else {
      assert CodePoints(t) == [t[..n]] + CodePoints(t[n..]) && t[n..] == [];
    }
  }

  /** Lengths add up unless the seam would make a pair. */
  lemma {:induction false} ByteLengthAppend(a: Text, b: Text)
    requires !Joint(a, b)
    ensures ByteLength(a + b) == ByteLength(a) + ByteLength(b)
  {
    var ca, cb := CodePoints(a), CodePoints(b);
    CodePointsCanonical(a);
    CodePointsCanonical(b);
    if a != [] && b != [] {
      LastCodePoint(a);
      assert cb[0] != [] && cb[0][0] == b[0] by {
        assert IsCodePoint(cb[0]);
      }
    }
    CanonicalAppend(ca, cb);
    ConcatAppend(ca, cb);
    ReadCanonical(ca + cb);
    WeighAppend(ca, cb, CodePointBytes);
  }

  /** A pair made at a seam takes fewer bytes than its halves apart. */
  lemma {:induction false} ByteLengthSum(a: Text, b: Text)
    ensures ByteLength(a + b) <= ByteLength(a) + ByteLength(b)
  {
    if Joint(a, b) {
      var a', b' := a[..|a| - 1], b[1..];
      var high, low := [a[|a| - 1]], [b[0]];
      assert a == a' + high && b == low + b' && a + b == a' + ((high + low) + b');
      ByteLengthAppend(a', high);
      ByteLengthAppend(low, b');
      ByteLengthAppend(high + low, b');
      ByteLengthAppend(a', (high + low) + b');
      PairBytes(high[0], low[0]);
    } else {
      ByteLengthAppend(a, b);
    }
  }

  lemma {:induction false} PairBytes(high: CodeUnit, low: CodeUnit)
    requires IsHigh(high) && IsLow(low)
    ensures ByteLength([high] + [low]) == 4 && ByteLength([high]) == ByteLength([low]) == 3
  {
    var pair := [high] + [low];
    assert pair[..2] == pair && pair[2..] == [];
    assert CodePoints([]) == [] && CodePoints(pair) == [pair] + CodePoints([]);
    assert CodePoints([high]) == [[high][..1]] + CodePoints([high][1..]);
    assert CodePoints([low]) == [[low][..1]] + CodePoints([low][1..]);
    assert Weigh([pair], CodePointBytes) == CodePointBytes(pair) + Weigh([pair][1..], CodePointBytes);
  }
}

/** Outbound text cut into PRIVMSG bodies (packages/gateway-irc/src/split.ts). */
module IrcSplit {
  import opened Utf16
  import opened Packing
  import opened Utf8Length

  datatype Result = Bodies(bodies: seq<Text>) | TargetTooLong(budget: int)

  const LINE_LIMIT_BYTES: int := 512
  const CRLF_BYTES: int := 2
  const DEFAULT_PREFIX_RESERVE_BYTES: nat := 100
  const MAX_CODE_POINT_BYTES: int := 4

  /** `PRIVMSG `. */
  const PRIVMSG_WORD: Text := [80, 82, 73, 86, 77, 83, 71]
  const CRLF: Text := [CR, LF]

  function Head(target: Text): Text {
    PRIVMSG_WORD + [SPACE] + target + [SPACE, ':' as int]
  }

  predicate IsBreak(u: CodeUnit) {
    u == LF || u == CR
  }

  function WithoutNul(t: Text): Text {
    if t == [] then [] else (if t[0] == NUL then [] else [t[0]]) + WithoutNul(t[1..])
  }

  function WithoutBreaks(t: Text): Text {
    if t == [] then [] else (if IsBreak(t[0]) then [] else [t[0]]) + WithoutBreaks(t[1..])
  }

  function BreakAt(t: Text): (n: nat)
    ensures n <= |t| && (n < |t| ==> IsBreak(t[n]))
    ensures forall i :: 0 <= i < n ==> !IsBreak(t[i])
  {
    if t == [] || IsBreak(t[0]) then 0 else 1 + BreakAt(t[1..])
  }

  function BreakWidth(t: Text, at: nat): (w: nat)
    requires at < |t|
    ensures 1 <= w && at + w <= |t|
  {
    if t[at] == CR && at + 1 < |t| && t[at + 1] == LF then 2 else 1
  }

  /** `t.split(/\r\n|\n|\r/)`. */
  function SplitBreaks(t: Text): seq<Text>
    decreases |t|
  {
    var n := BreakAt(t);
    if n == |t| then [t] else [t[..n]] + SplitBreaks(t[n + BreakWidth(t, n)..])
  }

  function CutLine(line: Text, budget: nat): seq<Text> {
    ConcatEach(Groups(CodePoints(line), [], budget, CodePointBytes))
  }

  function CutLines(lines: seq<Text>, budget: nat): seq<Text> {
    if lines == [] then []
    else (if lines[0] == [] then [] else CutLine(lines[0], budget)) + CutLines(lines[1..], budget)
  }

  function Budget(target: Text, reserve: nat): int {
    LINE_LIMIT_BYTES - CRLF_BYTES - ByteLength(Head(target)) - reserve
  }

  function Split(text: Text, target: Text, reserve: nat): Result {
    var budget := Budget(target, reserve);
    if budget < MAX_CODE_POINT_BYTES then TargetTooLong(budget)
    else Bodies(CutLines(SplitBreaks(WithoutNul(text)), budget))
  }

  // ---- the loops of the source ----

  method CutLineLoop(line: Text, budget: nat) returns (pieces: seq<Text>)
    requires budget >= MAX_CODE_POINT_BYTES
    ensures pieces == CutLine(line, budget)
  {
    var cps := CodePoints(line);
    CodePointsCanonical(line);
    ghost var done: seq<seq<Text>>, cur: seq<Text> := [], [];
    pieces := [];
    var piece: Text := [];
    var pieceBytes: nat := 0;
    WalkBegins(cps, budget, CodePointBytes);
    for i := 0 to |cps|
      invariant Walked(cps, budget, CodePointBytes, i, Walk(pieces, piece, pieceBytes), done, cur)
    {
      var codePoint := cps[i];
      var bytes := CodePointBytes(codePoint);
      assert IsCodePoint(codePoint);
      if pieceBytes + bytes > budget {
        EmptyPieceFits(cps, budget, i, Walk(pieces, piece, pieceBytes), done, cur);
        WalkCuts(cps, budget, CodePointBytes, i, Walk(pieces, piece, pieceBytes), done, cur);
        done, cur := done + [cur], [codePoint];
        pieces := pieces + [piece];
        piece := [];
        pieceBytes := 0;
      } else {
        WalkGrows(cps, budget, CodePointBytes, i, Walk(pieces, piece, pieceBytes), done, cur);
        cur := cur + [codePoint];
      }
      piece := piece + codePoint;
      pieceBytes := pieceBytes + bytes;
    }
    WalkEnds(cps, budget, CodePointBytes, Walk(pieces, piece, pieceBytes), done, cur);
    if piece != [] { pieces := pieces + [piece]; }
  }

  /** A budget of four bytes holds any code point, so no empty piece is ever closed. */
  lemma {:induction false} EmptyPieceFits(
      cps: seq<Text>, budget: nat, i: nat, w: Walk, done: seq<seq<Text>>, cur: seq<Text>)
    requires budget >= MAX_CODE_POINT_BYTES && Walked(cps, budget, CodePointBytes, i, w, done, cur) && i < |cps|
    requires w.size + CodePointBytes(cps[i]) > budget
    ensures w.buf != []
  {
  }

  method SplitForIrc(text: Text, target: Text, reserve: nat := DEFAULT_PREFIX_RESERVE_BYTES) returns (r: Result)
    ensures r == Split(text, target, reserve)
  {
    var budget := Budget(target, reserve);
    if budget < MAX_CODE_POINT_BYTES { return TargetTooLong(budget); }
    var chunks: seq<Text> := [];
    var lines := SplitBreaks(WithoutNul(text));
    for i := 0 to |lines|
      invariant chunks + CutLines(lines[i..], budget) == CutLines(lines, budget)
    {
      CutLinesStep(chunks, lines, i, budget);
      if lines[i] == [] { continue; }
      var pieces := CutLineLoop(lines[i], budget);
      chunks := chunks + pieces;
    }
    assert chunks + [] == chunks;
    r := Bodies(chunks);
  }

  lemma {:induction false} CutLinesStep(chunks: seq<Text>, lines: seq<Text>, i: nat, budget: nat)
    requires i < |lines|
    ensures chunks + CutLines(lines[i..], budget)
         == (if lines[i] == [] then chunks else chunks + CutLine(lines[i], budget)) + CutLines(lines[i + 1..], budget)
  {
  }

  // ---- what the bodies are ----

  predicate OneLine(t: Text) {
    forall i :: 0 <= i < |t| ==> !IsBreak(t[i])
  }

  ghost predicate Piece(p: Text, budget: nat) {
    p != [] && ByteLength(p) <= budget
  }

  lemma {:induction false} GroupWithin(groups: seq<seq<Text>>, cps: seq<Text>, k: nat)
    requires Flatten(groups) == cps && Canonical(cps) && k < |groups|
    ensures Canonical(groups[k])
    decreases |groups|
  {
    var tail := Flatten(groups[1..]);
    assert cps == groups[0] + tail;
    assert forall i :: 0 <= i < |groups[0]| ==> groups[0][i] == cps[i];
    if k == 0 {
      assert forall i :: 0 <= i < |groups[0]| - 1 ==> Separate(cps[i], cps[i + 1]);
    } else {
      var n := |groups[0]|;
      assert forall i :: 0 <= i < |tail| ==> tail[i] == cps[n + i];
      forall i | 0 <= i < |tail| ensures IsCodePoint(tail[i]) {
        assert IsCodePoint(cps[n + i]);
      }
      forall i | 0 <= i < |tail| - 1 ensures Separate(tail[i], tail[i + 1]) {
        assert Separate(cps[n + i], cps[n + i + 1]);
      }
      GroupWithin(groups[1..], tail, k - 1);
    }
  }

  /** A line's pieces are the line, each within the budget and cut between code points. */
  lemma {:induction false} CutLineSound(line: Text, budget: nat)
    requires budget >= MAX_CODE_POINT_BYTES
    ensures Concat(CutLine(line, budget)) == line
    ensures forall i :: 0 <= i < |CutLine(line, budget)| ==> Piece(CutLine(line, budget)[i], budget)
  {
    var cps := CodePoints(line);
    var groups := Groups(cps, [], budget, CodePointBytes);
    CodePointsCanonical(line);
    GroupsPacked(cps, [], budget, CodePointBytes);
    assert [] + cps == cps;
    ConcatFlatten(groups);
    forall i | 0 <= i < |groups| ensures Piece(ConcatEach(groups)[i], budget) {
      PieceOfGroup(groups, cps, i, budget);
    }
  }

  lemma {:induction false} PieceOfGroup(groups: seq<seq<Text>>, cps: seq<Text>, i: nat, budget: nat)
    requires budget >= MAX_CODE_POINT_BYTES
    requires Packed(groups, cps, budget, CodePointBytes) && Canonical(cps) && i < |groups|
    ensures Piece(Concat(groups[i]), budget)
  {
    var g := groups[i];
    assert g in groups && FitsOrSingle(g, budget, CodePointBytes);
    GroupWithin(groups, cps, i);
    ReadCanonical(g);
    assert IsCodePoint(g[0]) && Concat(g) == g[0] + Concat(g[1..]);
    if |g| == 1 {
      assert g[1..] == [] && Weigh(g, CodePointBytes) == CodePointBytes(g[0]) + Weigh([], CodePointBytes);
    }
  }

  lemma {:induction false} ConcatMember(parts: seq<Text>, p: Text)
    requires p in parts && OneLine(Concat(parts))
    ensures OneLine(p)
  {
    var whole := Concat(parts);
    if parts[0] == p {
      assert forall i :: 0 <= i < |p| ==> p[i] == whole[i];
    } else {
      var rest := Concat(parts[1..]);
      assert forall i :: 0 <= i < |rest| ==> rest[i] == whole[|parts[0]| + i];
      ConcatMember(parts[1..], p);
    }
  }

  lemma {:induction false} LinesAreOneLine(t: Text)
    ensures forall i :: 0 <= i < |SplitBreaks(t)| ==> OneLine(SplitBreaks(t)[i])
    decreases |t|
  {
    var n := BreakAt(t);
    if n < |t| {
      LinesAreOneLine(t[n + BreakWidth(t, n)..]);
    }
  }

  lemma {:induction false} LinesAreText(t: Text)
    ensures Concat(SplitBreaks(t)) == WithoutBreaks(t)
    decreases |t|
  {
    var n := BreakAt(t);
    BreaksBefore(t, n);
    if n == |t| {
      assert t[..n] == t && Concat([t]) == t + Concat([]) && t[n..] == [];
    } else {
      var rest := t[n + BreakWidth(t, n)..];
      LinesAreText(rest);
      BreakDropped(t, n);
      assert SplitBreaks(t)[1..] == SplitBreaks(rest);
    }
  }

  lemma {:induction false} BreakDropped(t: Text, n: nat)
    requires n < |t| && IsBreak(t[n])
    ensures WithoutBreaks(t[n..]) == WithoutBreaks(t[n + BreakWidth(t, n)..])
  {
  }

  lemma {:induction false} BreaksBefore(t: Text, n: nat)
    requires n <= |t| && forall i :: 0 <= i < n ==> !IsBreak(t[i])
    ensures WithoutBreaks(t) == t[..n] + WithoutBreaks(t[n..])
  {
    if n > 0 {
      BreaksBefore(t[1..], n - 1);
      assert t[1..][n - 1..] == t[n..] && t[..n] == [t[0]] + t[1..][..n - 1];
    }
  }

  lemma {:induction false} CutLinesSound(lines: seq<Text>, budget: nat)
    requires budget >= MAX_CODE_POINT_BYTES
    requires forall i :: 0 <= i < |lines| ==> OneLine(lines[i])
    ensures Concat(CutLines(lines, budget)) == Concat(lines)
    ensures forall p :: p in CutLines(lines, budget) ==> Piece(p, budget) && OneLine(p)
  {
    if lines != [] {
      CutLinesSound(lines[1..], budget);
      if lines[0] != [] {
        var pieces := CutLine(lines[0], budget);
        CutLineSound(lines[0], budget);
        ConcatAppend(pieces, CutLines(lines[1..], budget));
        forall p | p in pieces ensures Piece(p, budget) && OneLine(p) {
          ConcatMember(pieces, p);
        }
      } else {
        assert CutLines(lines, budget) == CutLines(lines[1..], budget);
      }
    }
  }

  /**
   What a caller of `splitForIrc` gets: the text without NUL and line breaks, in bodies that are not
   empty, hold no line break, and whose command with CRLF and the reserve fits 512 bytes.
   */
  lemma {:induction false} BodiesSound(text: Text, target: Text, reserve: nat)
    requires Split(text, target, reserve).Bodies?
    ensures var bodies := Split(text, target, reserve).bodies;
            && Concat(bodies) == WithoutBreaks(WithoutNul(text))
            && forall b :: b in bodies ==>
                 b != [] && OneLine(b) && ByteLength(Head(target) + b + CRLF) + reserve <= LINE_LIMIT_BYTES
  {
    var budget := Budget(target, reserve);
    var t := WithoutNul(text);
    LinesAreOneLine(t);
    LinesAreText(t);
    CutLinesSound(SplitBreaks(t), budget);
    forall b | b in Split(text, target, reserve).bodies
      ensures b != [] && OneLine(b) && ByteLength(Head(target) + b + CRLF) + reserve <= LINE_LIMIT_BYTES
    {
      assert Piece(b, budget) && OneLine(b);
      CommandBytes(target, b);
    }
  }

  lemma {:induction false} CommandBytes(target: Text, body: Text)
    ensures ByteLength(Head(target) + body + CRLF) == ByteLength(Head(target)) + ByteLength(body) + CRLF_BYTES
  {
    var head := Head(target);
    assert head[|head| - 1] == ':' as int;
    ByteLengthAppend(head, body);
    assert !Joint(head + body, CRLF);
    ByteLengthAppend(head + body, CRLF);
    CrlfBytes();
  }

  lemma {:induction false} CrlfBytes()
    ensures ByteLength(CRLF) == 2
  {
    var cps: seq<Text> := [[CR], [LF]];
    assert Concat(cps[1..]) == [LF] + Concat([]) && cps[1..][1..] == [];
    assert Concat(cps) == CRLF;
    ReadCanonical(cps);
    assert Weigh(cps, CodePointBytes) == 1 + Weigh(cps[1..], CodePointBytes);
  }

  /** Cut only between code points, a well-formed text gives bodies that each decode on their own. */
  predicate ScalarValue(cp: Text) {
    IsCodePoint(cp) && (|cp| == 1 ==> !IsSurrogate(cp[0]))
  }

  lemma {:induction false} WellFormedCons(cp: Text, rest: Text)
    requires ScalarValue(cp) && WellFormed(rest)
    ensures WellFormed(cp + rest)
  {
    var t := cp + rest;
    forall i | 0 <= i < |t| ensures PairedAt(t, i) {
      if i >= |cp| {
        assert PairedAt(rest, i - |cp|);
      }
    }
  }

  lemma {:induction false} CanonicalWellFormed(cps: seq<Text>)
    requires forall i :: 0 <= i < |cps| ==> ScalarValue(cps[i])
    ensures WellFormed(Concat(cps))
  {
    if cps != [] {
      CanonicalWellFormed(cps[1..]);
      WellFormedCons(cps[0], Concat(cps[1..]));
    }
  }

  lemma {:induction false} WellFormedCodePoints(t: Text)
    requires WellFormed(t)
    ensures forall i :: 0 <= i < |CodePoints(t)| ==> ScalarValue(CodePoints(t)[i])
  {
    if t != [] {
      var n := if PairAt(t, 0) then 2 else 1;
      assert PairedAt(t, 0) && (n < |t| ==> PairedAt(t, n));
      assert n == 2 ==> PairedAt(t, 1);
      WellFormedCut(t, n);
      WellFormedCodePoints(t[n..]);
    }
  }

  lemma {:induction false} LineDecodesAlone(line: Text, budget: nat)
    requires WellFormed(line)
    ensures forall p :: p in CutLine(line, budget) ==> WellFormed(p)
  {
    var cps := CodePoints(line);
    var groups := Groups(cps, [], budget, CodePointBytes);
    WellFormedCodePoints(line);
    GroupsPacked(cps, [], budget, CodePointBytes);
    assert [] + cps == cps;
    forall p | p in CutLine(line, budget) ensures WellFormed(p) {
      var k :| 0 <= k < |groups| && p == Concat(groups[k]);
      forall j | 0 <= j < |groups[k]| ensures ScalarValue(groups[k][j]) {
        FlattenMember(groups, k, j);
      }
      CanonicalWellFormed(groups[k]);
    }
  }

  lemma {:induction false} FlattenMember(groups: seq<seq<Text>>, k: nat, j: nat)
    requires k < |groups| && j < |groups[k]|
    ensures groups[k][j] in Flatten(groups)
  {
    if k > 0 {
      assert groups[1..][k - 1] == groups[k];
      FlattenMember(groups[1..], k - 1, j);
    }
  }

  lemma {:induction false} WithoutNulStep(cp: Text, rest: Text)
    requires ScalarValue(cp)
    ensures WithoutNul(cp + rest) == (if cp == [NUL] then [] else cp) + WithoutNul(rest)
  {
  }

  lemma {:induction false} FirstScalar(t: Text) returns (n: nat)
    requires WellFormed(t) && t != []
    ensures 0 < n <= |t| && ScalarValue(t[..n]) && WellFormed(t[n..])
  {
    n := if PairAt(t, 0) then 2 else 1;
    assert PairedAt(t, 0) && (n < |t| ==> PairedAt(t, n));
    WellFormedCut(t, n);
  }

  lemma {:induction false} WithoutNulWellFormed(t: Text)
    requires WellFormed(t)
    ensures WellFormed(WithoutNul(t))
    decreases |t|
  {
    if t != [] {
      var n := FirstScalar(t);
      WithoutNulWellFormed(t[n..]);
      assert t == t[..n] + t[n..];
      WithoutNulStep(t[..n], t[n..]);
      if t[..n] != [NUL] {
        WellFormedCons(t[..n], WithoutNul(t[n..]));
      } else {
        assert [] + WithoutNul(t[n..]) == WithoutNul(t[n..]);
      }
    }
  }

  lemma {:induction false} LinesWellFormed(t: Text)
    requires WellFormed(t)
    ensures forall i :: 0 <= i < |SplitBreaks(t)| ==> WellFormed(SplitBreaks(t)[i])
    decreases |t|
  {
    var n := BreakAt(t);
    if n < |t| {
      var w := BreakWidth(t, n);
      WellFormedCut(t, n);
      if n + w < |t| {
        assert PairedAt(t, n + w);
      }
      WellFormedCut(t, n + w);
      LinesWellFormed(t[n + w..]);
    }
  }

  lemma {:induction false} CutLinesWellFormed(lines: seq<Text>, budget: nat)
    requires forall i :: 0 <= i < |lines| ==> WellFormed(lines[i])
    ensures forall p :: p in CutLines(lines, budget) ==> WellFormed(p)
  {
    if lines != [] {
      LineDecodesAlone(lines[0], budget);
      CutLinesWellFormed(lines[1..], budget);
    }
  }

  /** A well-formed text gives only well-formed bodies. */
  lemma {:induction false} BodiesDecodeAlone(text: Text, target: Text, reserve: nat)
    requires WellFormed(text) && Split(text, target, reserve).Bodies?
    ensures forall b :: b in Split(text, target, reserve).bodies ==> WellFormed(b)
  {
    WithoutNulWellFormed(text);
    LinesWellFormed(WithoutNul(text));
    CutLinesWellFormed(SplitBreaks(WithoutNul(text)), Budget(target, reserve));
  }
}
