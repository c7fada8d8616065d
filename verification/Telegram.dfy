/** Telegram's splitter with its markdown balancing (packages/gateway-telegram/src/split.ts). */
module Telegram {
  import opened Utf16
  import opened Rejoining

  const TELEGRAM_MAX_MESSAGE: nat := 4096
  const SAFE_CHUNK: nat := 4000

  const BOLD: Text := ['*' as int, '*' as int]
  const UNDERLINE: Text := ['_' as int, '_' as int]
  const STRIKE: Text := ['~' as int, '~' as int]
  const CODE: Text := ['`' as int]
  const MARKERS: seq<Text> := [BOLD, UNDERLINE, STRIKE, CODE]

  ghost predicate IsMarker(m: Text) {
    m != [] && forall i :: 0 <= i < |m| ==> !IsSpace(m[i])
  }

  // ---- specification ----

  /** Occurrences from `pos` on, leftmost first and not overlapping. */
  function Count(t: Text, m: Text, pos: nat): nat
    requires m != [] && pos <= |t|
    decreases |t| - pos
  {
    var found := IndexOf(t, m, pos);
    if found == -1 then 0 else 1 + Count(t, m, found + |m|)
  }

  predicate Even(t: Text, m: Text)
    requires m != []
  {
    Count(t, m, 0) % 2 == 0
  }

  function BalanceOne(t: Text, m: Text): (r: Text)
    requires m != []
    ensures r <= t
  {
    if Even(t, m) then t
    else
      var last := LastIndexOf(t, m, |t|);
      assert MatchesAt(t, m, IndexOf(t, m, 0));
      TrimEnd(t[..last])
  }

  function BalanceAll(t: Text, markers: seq<Text>): (r: Text)
    requires forall i :: 0 <= i < |markers| ==> markers[i] != []
    ensures r <= t
    decreases |markers|
  {
    if markers == [] then t else BalanceAll(BalanceOne(t, markers[0]), markers[1..])
  }

  function Balance(t: Text): Text {
    BalanceAll(t, MARKERS)
  }

  function Boundary(t: Text): (b: nat)
    requires |t| > SAFE_CHUNK
    ensures SAFE_CHUNK / 2 <= b <= SAFE_CHUNK
  {
    var paragraph := LastIndexOf(t, [LF, LF], SAFE_CHUNK);
    if 2 * paragraph >= SAFE_CHUNK then paragraph
    else
      var line := LastIndexOf(t, [LF], SAFE_CHUNK);
      if 2 * line >= SAFE_CHUNK then line else SAFE_CHUNK
  }

  /** The balanced chunk, or the raw one when balancing would leave nothing to send. */
  function ChunkOf(t: Text): (c: Text)
    requires |t| > SAFE_CHUNK
    ensures c <= t && 0 < |c| <= SAFE_CHUNK
  {
    var raw := t[..Boundary(t)];
    var balanced := Balance(raw);
    if |balanced| > 0 then balanced else raw
  }

  function Chunks(t: Text): seq<Text>
    decreases |t|
  {
    if t == [] then []
    else if |t| <= SAFE_CHUNK then [t]
    else
      var c := ChunkOf(t);
      [c] + Chunks(StripRun(t[|c|..], NewlineRun))
  }

  function TelegramParts(t: Text): seq<Text> {
    if |t| <= TELEGRAM_MAX_MESSAGE then [t] else Chunks(t)
  }

  // ---- the loops of the source ----

  method CountOccurrences(haystack: Text, needle: Text) returns (count: nat)
    requires needle != []
    ensures count == Count(haystack, needle, 0)
  {
    count := 0;
    var pos := 0;
    while true
      invariant pos <= |haystack|
      invariant count + Count(haystack, needle, pos) == Count(haystack, needle, 0)
      decreases |haystack| - pos
    {
      var found := IndexOf(haystack, needle, pos);
      if found == -1 { break; }
      count := count + 1;
      pos := found + |needle|;
    }
  }

  method BalanceMarkdownPairs(chunk: Text) returns (out: Text)
    ensures out == Balance(chunk)
  {
    out := chunk;
    for i := 0 to |MARKERS|
      invariant BalanceAll(out, MARKERS[i..]) == Balance(chunk)
    {
      var m := MARKERS[i];
      assert MARKERS[i..][0] == m && MARKERS[i..][1..] == MARKERS[i + 1..];
      var count := CountOccurrences(out, m);
      if count % 2 == 1 {
        assert MatchesAt(out, m, IndexOf(out, m, 0));
        var lastIdx := LastIndexOf(out, m, |out|);
        out := TrimEnd(out[..lastIdx]);
      }
    }
  }

  method SplitForTelegram(text: Text) returns (parts: seq<Text>)
    ensures parts == TelegramParts(text)
  {
    if |text| <= TELEGRAM_MAX_MESSAGE { return [text]; }
    parts := [];
    var remaining := text;
    while |remaining| > 0
      invariant parts + Chunks(remaining) == Chunks(text)
      decreases |remaining|
    {
      if |remaining| <= SAFE_CHUNK {
        parts := parts + [remaining];
        break;
      }
      var boundary := LastIndexOf(remaining, [LF, LF], SAFE_CHUNK);
      if 2 * boundary < SAFE_CHUNK { boundary := LastIndexOf(remaining, [LF], SAFE_CHUNK); }
      if 2 * boundary < SAFE_CHUNK { boundary := SAFE_CHUNK; }
      assert boundary == Boundary(remaining);
      var rawChunk := remaining[..boundary];
      var balanced := BalanceMarkdownPairs(rawChunk);
      var chunk := if |balanced| > 0 then balanced else rawChunk;
      assert chunk == ChunkOf(remaining);
      boundary := |chunk|;
      ChunksStep(parts, remaining);
      parts := parts + [chunk];
      remaining := StripRun(remaining[boundary..], NewlineRun);
    }
  }

  lemma {:induction false} ChunksStep(parts: seq<Text>, t: Text)
    requires |t| > SAFE_CHUNK
    ensures var c := ChunkOf(t);
            parts + Chunks(t) == (parts + [c]) + Chunks(StripRun(t[|c|..], NewlineRun))
  {
  }

  // ---- balancing ----

  lemma {:induction false} CountStep(t: Text, m: Text, pos: nat)
    requires m != [] && pos <= |t|
    ensures IndexOf(t, m, pos) == -1 ==> Count(t, m, pos) == 0
    ensures IndexOf(t, m, pos) != -1 ==>
              Count(t, m, pos) == 1 + Count(t, m, IndexOf(t, m, pos) + |m|)
  {
  }

  /** No match fits before the rightmost one begins: the greedy scan ends here. */
  lemma {:induction false} LastGreedyMatch(t: Text, m: Text, pos: nat, last: nat)
    requires m != [] && last == LastIndexOf(t, m, |t|) && pos <= last
    requires IndexOf(t, m, pos) + |m| > last
    ensures Count(t[..last], m, pos) == 0 && Count(t, m, pos) == 1
  {
    var found := IndexOf(t, m, pos);
    assert MatchesAt(t, m, last) && MatchesAt(t, m, found);
    forall i | pos <= i ensures !MatchesAt(t[..last], m, i) {
      PrefixMatch(t, last, m, i);
    }
    IndexIs(t[..last], m, pos, -1);
    CountStep(t[..last], m, pos);
    IndexIs(t, m, found + |m|, -1);
    CountStep(t, m, pos);
    CountStep(t, m, found + |m|);
  }

  lemma {:induction false} EarlierGreedyMatch(t: Text, m: Text, pos: nat, last: nat)
    requires m != [] && last == LastIndexOf(t, m, |t|) && pos <= last
    requires 0 <= IndexOf(t, m, pos) && IndexOf(t, m, pos) + |m| <= last
    ensures IndexOf(t[..last], m, pos) == IndexOf(t, m, pos)
  {
    forall i ensures MatchesAt(t[..last], m, i) <==> MatchesAt(t, m, i) && i + |m| <= last {
      PrefixMatch(t, last, m, i);
    }
    IndexIs(t[..last], m, pos, IndexOf(t, m, pos));
  }

  /** Cutting at the rightmost occurrence takes exactly one off the greedy count. */
  lemma {:induction false} RightmostCut(t: Text, m: Text, pos: nat, last: nat)
    requires m != [] && last == LastIndexOf(t, m, |t|) && pos <= last
    ensures Count(t[..last], m, pos) + 1 == Count(t, m, pos)
    decreases |t| - pos
  {
    var found := IndexOf(t, m, pos);
    assert MatchesAt(t, m, last) && found >= 0;
    if found + |m| <= last {
      EarlierGreedyMatch(t, m, pos, last);
      CountStep(t, m, pos);
      CountStep(t[..last], m, pos);
      RightmostCut(t, m, found + |m|, last);
    } else {
      LastGreedyMatch(t, m, pos, last);
    }
  }

  /** Whitespace at the end holds no part of a marker. */
  lemma {:induction false} TrimKeepsCount(t: Text, r: Text, m: Text, pos: nat)
    requires IsMarker(m) && r <= t && AllCovered(t[|r|..], SpaceRun) && pos <= |r|
    ensures Count(r, m, pos) == Count(t, m, pos)
    decreases |t| - pos
  {
    forall i ensures MatchesAt(r, m, i) <==> MatchesAt(t, m, i) {
      TrimKeepsMatch(t, r, m, i);
    }
    var found := IndexOf(t, m, pos);
    IndexIs(r, m, pos, found);
    if found != -1 {
      TrimKeepsCount(t, r, m, found + |m|);
    }
  }

  lemma {:induction false} TrimKeepsMatch(t: Text, r: Text, m: Text, i: int)
    requires IsMarker(m) && r <= t && AllCovered(t[|r|..], SpaceRun)
    ensures MatchesAt(r, m, i) <==> MatchesAt(t, m, i)
  {
    PrefixMatch(t, |r|, m, i);
    assert r == t[..|r|];
    if 0 <= i && |r| < i + |m| <= |t| {
      var k := i + |m| - 1;
      assert t[|r|..][k - |r|] == t[k] && IsSpace(t[k]);
      assert t[i..i + |m|][|m| - 1] == t[k];
    }
  }

  /** Each balancing step leaves its own marker paired, and changes nothing that was paired. */
  lemma {:induction false} BalanceOneEven(t: Text, m: Text)
    requires IsMarker(m)
    ensures Even(BalanceOne(t, m), m)
    ensures BalanceOne(t, m) == t <==> Even(t, m)
    ensures !Even(t, m) ==> Count(BalanceOne(t, m), m, 0) + 1 == Count(t, m, 0)
  {
    if !Even(t, m) { OddTrimmed(t, m, LastIndexOf(t, m, |t|)); }
  }

  lemma {:induction false} OddTrimmed(t: Text, m: Text, last: int)
    requires IsMarker(m) && !Even(t, m) && last == LastIndexOf(t, m, |t|)
    ensures 0 <= last < |t| && BalanceOne(t, m) == TrimEnd(t[..last])
    ensures Count(BalanceOne(t, m), m, 0) + 1 == Count(t, m, 0)
  {
    assert MatchesAt(t, m, IndexOf(t, m, 0));
    RightmostCut(t, m, 0, last);
    TrimKeepsCount(t[..last], TrimEnd(t[..last]), m, 0);
  }

  lemma {:induction false} MarkersAreMarkers()
    ensures forall i :: 0 <= i < |MARKERS| ==> IsMarker(MARKERS[i])
  {
  }

  /** The last marker processed is the backtick, so code spans are always paired. */
  lemma {:induction false} BalancePairsCode(t: Text)
    ensures Even(Balance(t), CODE)
  {
    MarkersAreMarkers();
    var out := BalanceOne(BalanceOne(BalanceOne(t, BOLD), UNDERLINE), STRIKE);
    assert MARKERS[1..] == [UNDERLINE, STRIKE, CODE] && MARKERS[1..][1..] == [STRIKE, CODE];
    assert [STRIKE, CODE][1..] == [CODE] && [CODE][1..] == [];
    assert Balance(t) == BalanceOne(out, CODE) by {
      BalanceUnrolled(t);
    }
    BalanceOneEven(out, CODE);
  }

  lemma {:induction false} BalanceUnrolled(t: Text)
    ensures Balance(t) == BalanceOne(BalanceOne(BalanceOne(BalanceOne(t, BOLD), UNDERLINE), STRIKE), CODE)
  {
    var s1 := BalanceOne(t, BOLD);
    var s2 := BalanceOne(s1, UNDERLINE);
    var s3 := BalanceOne(s2, STRIKE);
    assert MARKERS[1..] == [UNDERLINE, STRIKE, CODE];
    assert BalanceAll(t, MARKERS) == BalanceAll(s1, [UNDERLINE, STRIKE, CODE]);
    assert [UNDERLINE, STRIKE, CODE][1..] == [STRIKE, CODE];
    assert BalanceAll(s1, [UNDERLINE, STRIKE, CODE]) == BalanceAll(s2, [STRIKE, CODE]);
    assert [STRIKE, CODE][1..] == [CODE];
    assert BalanceAll(s2, [STRIKE, CODE]) == BalanceAll(s3, [CODE]);
    assert [CODE][1..] == [];
    assert BalanceAll(s3, [CODE]) == BalanceAll(BalanceOne(s3, CODE), []);
  }

  predicate AllEven(t: Text) {
    Even(t, BOLD) && Even(t, UNDERLINE) && Even(t, STRIKE) && Even(t, CODE)
  }

  /** Balancing leaves a chunk alone exactly when all four markers are already paired in it. */
  lemma {:induction false} BalanceFixpoint(t: Text)
    ensures Balance(t) == t <==> AllEven(t)
  {
    MarkersAreMarkers();
    BalanceUnrolled(t);
    var s1 := BalanceOne(t, BOLD);
    var s2 := BalanceOne(s1, UNDERLINE);
    var s3 := BalanceOne(s2, STRIKE);
    OneFixpoint(t, BOLD);
    OneFixpoint(s1, UNDERLINE);
    OneFixpoint(s2, STRIKE);
    OneFixpoint(s3, CODE);
    assert |Balance(t)| <= |s3| <= |s2| <= |s1| <= |t|;
  }

  lemma {:induction false} OneFixpoint(t: Text, m: Text)
    requires IsMarker(m)
    ensures BalanceOne(t, m) == t <==> Even(t, m)
    ensures |BalanceOne(t, m)| <= |t| && (|BalanceOne(t, m)| == |t| ==> BalanceOne(t, m) == t)
  {
  }

  /** The text a trim for `n` keeps, before its trailing whitespace goes. */
  function CutBefore(t: Text, n: Text): Text
    requires n != [] && !Even(t, n)
  {
    assert MatchesAt(t, n, IndexOf(t, n, 0));
    t[..LastIndexOf(t, n, |t|)]
  }

  /** What a step for `n` does to another marker: nothing, or it leaves the occurrences before the cut. */
  lemma {:induction false} OtherMarkerParity(t: Text, n: Text, m: Text)
    requires IsMarker(n) && IsMarker(m)
    ensures Even(BalanceOne(t, n), m) <==> if Even(t, n) then Even(t, m) else Even(CutBefore(t, n), m)
  {
    if !Even(t, n) {
      TrimKeepsCount(CutBefore(t, n), TrimEnd(CutBefore(t, n)), m, 0);
    }
  }

  /** The last trim, if any, cuts where every marker handled before it is paired. */
  predicate LastCutSpares(t: Text) {
    var s1 := BalanceOne(t, BOLD);
    var s2 := BalanceOne(s1, UNDERLINE);
    var s3 := BalanceOne(s2, STRIKE);
    if !Even(s3, CODE) then
      var cut := CutBefore(s3, CODE);
      Even(cut, BOLD) && Even(cut, UNDERLINE) && Even(cut, STRIKE)
    else if !Even(s2, STRIKE) then Even(CutBefore(s2, STRIKE), BOLD) && Even(CutBefore(s2, STRIKE), UNDERLINE)
    else if !Even(s1, UNDERLINE) then Even(CutBefore(s1, UNDERLINE), BOLD)
    else true
  }

  lemma {:induction false} UnderlineStep(s1: Text, s2: Text)
    requires s2 == BalanceOne(s1, UNDERLINE)
    ensures Even(s2, UNDERLINE)
    ensures Even(s2, BOLD) <==> if Even(s1, UNDERLINE) then Even(s1, BOLD) else Even(CutBefore(s1, UNDERLINE), BOLD)
  {
    MarkersAreMarkers();
    BalanceOneEven(s1, UNDERLINE);
    OtherMarkerParity(s1, UNDERLINE, BOLD);
  }

  lemma {:induction false} StrikeStep(s2: Text, s3: Text)
    requires s3 == BalanceOne(s2, STRIKE)
    ensures Even(s3, STRIKE)
    ensures Even(s3, BOLD) <==> if Even(s2, STRIKE) then Even(s2, BOLD) else Even(CutBefore(s2, STRIKE), BOLD)
    ensures Even(s3, UNDERLINE) <==>
            if Even(s2, STRIKE) then Even(s2, UNDERLINE) else Even(CutBefore(s2, STRIKE), UNDERLINE)
  {
    MarkersAreMarkers();
    BalanceOneEven(s2, STRIKE);
    OtherMarkerParity(s2, STRIKE, BOLD);
    OtherMarkerParity(s2, STRIKE, UNDERLINE);
  }

  lemma {:induction false} CodeStep(s3: Text, s4: Text)
    requires s4 == BalanceOne(s3, CODE)
    ensures AllEven(s4) <==>
            var cut := if Even(s3, CODE) then s3 else CutBefore(s3, CODE);
            Even(cut, BOLD) && Even(cut, UNDERLINE) && Even(cut, STRIKE)
  {
    MarkersAreMarkers();
    BalanceOneEven(s3, CODE);
    OtherMarkerParity(s3, CODE, BOLD);
    OtherMarkerParity(s3, CODE, UNDERLINE);
    OtherMarkerParity(s3, CODE, STRIKE);
  }

  /** Exactly when a balanced chunk has all four markers paired. */
  lemma {:induction false} AllPairedExactly(t: Text)
    ensures AllEven(Balance(t)) <==> LastCutSpares(t)
  {
    BalanceUnrolled(t);
    var s1 := BalanceOne(t, BOLD);
    var s2 := BalanceOne(s1, UNDERLINE);
    var s3 := BalanceOne(s2, STRIKE);
    MarkersAreMarkers();
    BalanceOneEven(t, BOLD);
    UnderlineStep(s1, s2);
    StrikeStep(s2, s3);
    CodeStep(s3, BalanceOne(s3, CODE));
  }

  /** `** a ` then a backtick then ` b **`: trimming for the backtick unpairs the bold marker. */
  const UNPAIRED: Text := [42, 42, 32, 97, 32, 96, 32, 98, 32, 42, 42]

  lemma {:induction false} LaterTrimUnpairsEarlier()
    ensures Even(UNPAIRED, BOLD)
    ensures Balance(UNPAIRED) == UNPAIRED[..4]
    ensures !Even(Balance(UNPAIRED), BOLD)
  {
    var t := UNPAIRED;
    BoldPairs(t);
    AbsentMarker(t, UNDERLINE);
    AbsentMarker(t, STRIKE);
    OnlyCodeUnpaired(t);
    CodeTrimmed(t);
    BoldOnce(t[..4]);
  }

  lemma {:induction false} OnlyCodeUnpaired(t: Text)
    requires Even(t, BOLD) && Even(t, UNDERLINE) && Even(t, STRIKE)
    ensures Balance(t) == BalanceOne(t, CODE)
  {
    BalanceUnrolled(t);
  }

  lemma {:induction false} DoubleMatch(t: Text, u: CodeUnit, i: int)
    ensures MatchesAt(t, [u, u], i) <==> 0 <= i < |t| - 1 && t[i] == u && t[i + 1] == u
  {
  }

  lemma {:induction false} BoldPairs(t: Text)
    requires t == UNPAIRED
    ensures Count(t, BOLD, 0) == 2
  {
    forall i ensures MatchesAt(t, BOLD, i) <==> i == 0 || i == 9 {
      DoubleMatch(t, '*' as int, i);
    }
    IndexIs(t, BOLD, 0, 0);
    IndexIs(t, BOLD, 2, 9);
    IndexIs(t, BOLD, 11, -1);
    assert Count(t, BOLD, 2) == 1 + Count(t, BOLD, 11);
  }

  lemma {:induction false} BoldOnce(r: Text)
    requires r == UNPAIRED[..4]
    ensures Count(r, BOLD, 0) == 1
  {
    forall i ensures MatchesAt(r, BOLD, i) <==> i == 0 {
      DoubleMatch(r, '*' as int, i);
    }
    IndexIs(r, BOLD, 0, 0);
    IndexIs(r, BOLD, 2, -1);
  }

  lemma {:induction false} CodeTrimmed(t: Text)
    requires t == UNPAIRED
    ensures BalanceOne(t, CODE) == t[..4]
  {
    forall i ensures MatchesAt(t, CODE, i) <==> i == 5 {
      MatchesUnit(t, '`' as int, i);
    }
    IndexIs(t, CODE, 0, 5);
    IndexIs(t, CODE, 6, -1);
    CountStep(t, CODE, 0);
    CountStep(t, CODE, 6);
    assert LastIndexOf(t, CODE, |t|) == 5;
    assert t[..5][..4] == t[..4] && TrimEnd(t[..4]) == t[..4];
  }

  lemma {:induction false} AbsentMarker(t: Text, m: Text)
    requires m != [] && m[0] !in t
    ensures Count(t, m, 0) == 0
  {
  }

  // ---- the split ----

  /** A chunk that is not the last: its code spans are paired, or balancing had nothing to keep. */
  predicate PairedOrRaw(c: Text) {
    Even(c, CODE) || Balance(c) == []
  }

  lemma {:induction false} ChunksWithin(t: Text)
    ensures forall c :: c in Chunks(t) ==> 0 < |c| <= SAFE_CHUNK
    decreases |t|
  {
    if |t| > SAFE_CHUNK {
      ChunksWithin(StripRun(t[|ChunkOf(t)|..], NewlineRun));
    }
  }

  lemma {:induction false} ChunksRejoin(t: Text)
    ensures Rejoins(Chunks(t), t, NewlineRun)
    decreases |t|
  {
    if t == [] {
      assert RejoinsBy([], [], t, NewlineRun);
    } else if |t| <= SAFE_CHUNK {
      RejoinsWhole(t, NewlineRun);
    } else {
      var c := ChunkOf(t);
      var rest := StripRun(t[|c|..], NewlineRun);
      ChunksRejoin(rest);
      RejoinsAtCut(t, |c|, Chunks(rest), NewlineRun);
      assert c == t[..|c|];
    }
  }

  lemma {:induction false} ChunkOfPaired(t: Text)
    requires |t| > SAFE_CHUNK
    ensures PairedOrRaw(ChunkOf(t))
  {
    BalancePairsCode(t[..Boundary(t)]);
  }

  lemma {:induction false} ChunksPaired(t: Text)
    ensures forall i :: 0 <= i < |Chunks(t)| - 1 ==> PairedOrRaw(Chunks(t)[i])
    decreases |t|
  {
    if |t| > SAFE_CHUNK {
      var rest := StripRun(t[|ChunkOf(t)|..], NewlineRun);
      ChunkOfPaired(t);
      ChunksPaired(rest);
      assert Chunks(t) == [ChunkOf(t)] + Chunks(rest);
    }
  }

  /**
   Telegram splitting: nothing empty, nothing over the cap, only newline runs dropped and only at
   the cuts, and code spans paired in every chunk but the last and the raw fallbacks.
   */
  lemma {:induction false} TelegramSplitSound(t: Text)
    ensures forall c :: c in TelegramParts(t) ==> |c| <= TELEGRAM_MAX_MESSAGE && (t != [] ==> c != [])
    ensures Rejoins(TelegramParts(t), t, NewlineRun)
    ensures forall i :: 0 <= i < |TelegramParts(t)| - 1 ==> PairedOrRaw(TelegramParts(t)[i])
  {
    if |t| <= TELEGRAM_MAX_MESSAGE {
      RejoinsWhole(t, NewlineRun);
    } else {
      ChunksWithin(t);
      ChunksRejoin(t);
      ChunksPaired(t);
    }
  }
}
