/**
 Where the splitters cut, said of the text alone
 (packages/gateway/src/text/chunk.ts, packages/gateway-telegram/src/split.ts).
 */
module SplitBoundaries {
  import opened Utf16
  import opened Chunking
  import Telegram

  /** `b` occurs at `p`, no later than the end of the window, and nowhere between. */
  predicate LastAt(t: Text, window: nat, b: Text, p: int) {
    p <= window && MatchesAt(t, b, p) && forall i :: p < i <= window ==> !MatchesAt(t, b, i)
  }

  /** Its last occurrence in the window is in the second half. */
  ghost predicate InSecondHalf(t: Text, window: nat, b: Text) {
    exists p :: window <= 2 * p && LastAt(t, window, b, p)
  }

  /** The first boundary of the list that does so does it at `p`. */
  ghost predicate Preferred(t: Text, window: nat, boundaries: seq<Text>, p: int) {
    exists j :: 0 <= j < |boundaries| && LastAt(t, window, boundaries[j], p) && window <= 2 * p
                && forall k :: 0 <= k < j ==> !InSecondHalf(t, window, boundaries[k])
  }

  ghost predicate NonePreferred(t: Text, window: nat, boundaries: seq<Text>) {
    forall k :: 0 <= k < |boundaries| ==> !InSecondHalf(t, window, boundaries[k])
  }

  /** The last resort: the last boundary of the list, wherever in the window, if that is asked for. */
  ghost predicate Resort(t: Text, o: Options, p: int)
    requires Accepted(o)
  {
    if o.boundaries == [] then p == o.safeLimit
    else
      var last := o.boundaries[|o.boundaries| - 1];
      if o.lastResort == LastBoundary && (exists q :: 0 < q && LastAt(t, o.safeLimit, last, q)) then
        0 < p && LastAt(t, o.safeLimit, last, p)
      else p == o.safeLimit
  }

  /** One unit earlier when the cut would sever a pair, unless nothing would be left. */
  function Spared(t: Text, p: int, o: Options): int {
    if !o.surrogateGuard || !(0 <= p < |t|) || !IsLow(t[p]) then p
    else if p > 1 then p - 1
    else o.safeLimit
  }

  /** Where a text longer than the window is cut. */
  ghost predicate CutHere(t: Text, c: int, o: Options)
    requires Accepted(o)
  {
    exists p :: c == Spared(t, p, o)
                && (Preferred(t, o.safeLimit, o.boundaries, p)
                    || (NonePreferred(t, o.safeLimit, o.boundaries) && Resort(t, o, p)))
  }

  lemma {:induction false} LastAtIs(t: Text, window: nat, b: Text, p: int)
    ensures LastAt(t, window, b, p) <==> p >= 0 && LastIndexOf(t, b, window) == p
  {
  }

  lemma {:induction false} ReachesIs(t: Text, window: nat, b: Text)
    requires 0 < window
    ensures Reaches(t, window, b) <==> InSecondHalf(t, window, b)
  {
    LastAtIs(t, window, b, LastIndexOf(t, b, window));
    if InSecondHalf(t, window, b) {
      var p :| window <= 2 * p && LastAt(t, window, b, p);
      LastAtIs(t, window, b, p);
    }
  }

  lemma {:induction false} FirstReaching(t: Text, window: nat, boundaries: seq<Text>) returns (j: nat)
    requires exists k :: 0 <= k < |boundaries| && Reaches(t, window, boundaries[k])
    ensures j < |boundaries| && Reaches(t, window, boundaries[j])
    ensures forall k :: 0 <= k < j ==> !Reaches(t, window, boundaries[k])
  {
    j := 0;
    while !Reaches(t, window, boundaries[j])
      invariant j < |boundaries| && forall k :: 0 <= k < j ==> !Reaches(t, window, boundaries[k])
      invariant exists k :: j <= k < |boundaries| && Reaches(t, window, boundaries[k])
      decreases |boundaries| - j
    {
      j := j + 1;
    }
  }

  /** The search finds the preferred boundary, or the position of the last one tried. */
  lemma {:induction false} SearchFinds(t: Text, window: nat, boundaries: seq<Text>)
    requires 0 < window
    ensures var c := BoundaryCut(t, window, boundaries, window);
            if NonePreferred(t, window, boundaries) then
              c == if boundaries == [] then window else LastIndexOf(t, boundaries[|boundaries| - 1], window)
            else Preferred(t, window, boundaries, c)
    ensures !NonePreferred(t, window, boundaries) ==> window <= 2 * BoundaryCut(t, window, boundaries, window)
  {
    forall k | 0 <= k < |boundaries|
      ensures Reaches(t, window, boundaries[k]) <==> InSecondHalf(t, window, boundaries[k])
    {
      ReachesIs(t, window, boundaries[k]);
    }
    if NonePreferred(t, window, boundaries) {
      if boundaries != [] { LastBoundaryTried(t, window, boundaries, window); }
    } else {
      var j := FirstReaching(t, window, boundaries);
      BoundaryPreference(t, window, boundaries, window, j);
      LastAtIs(t, window, boundaries[j], LastIndexOf(t, boundaries[j], window));
    }
  }

  lemma {:induction false} NoneReaches(t: Text, window: nat, boundaries: seq<Text>)
    requires 0 < window && NonePreferred(t, window, boundaries) && boundaries != []
    ensures 2 * LastIndexOf(t, boundaries[|boundaries| - 1], window) < window
  {
    ReachesIs(t, window, boundaries[|boundaries| - 1]);
  }

  lemma {:induction false} ResortIs(t: Text, o: Options, c: int)
    requires Accepted(o) && NonePreferred(t, o.safeLimit, o.boundaries)
    requires c == BoundaryCut(t, o.safeLimit, o.boundaries, o.safeLimit)
    ensures Resort(t, o, if 2 * c < o.safeLimit && !(o.lastResort == LastBoundary && 0 < c) then o.safeLimit else c)
  {
    SearchFinds(t, o.safeLimit, o.boundaries);
    if o.boundaries != [] {
      var last := o.boundaries[|o.boundaries| - 1];
      NoneReaches(t, o.safeLimit, o.boundaries);
      LastAtIs(t, o.safeLimit, last, c);
      forall q
        ensures LastAt(t, o.safeLimit, last, q) ==> q == c
      {
        LastAtIs(t, o.safeLimit, last, q);
      }
    }
  }

  /** `findCut` cuts there. */
  lemma {:induction false} CutIsHere(t: Text, o: Options)
    requires Accepted(o)
    ensures CutHere(t, CutOf(t, o.safeLimit, o.boundaries, o.lastResort, o.surrogateGuard), o)
  {
    var w := o.safeLimit;
    var c := BoundaryCut(t, w, o.boundaries, w);
    var p := if 2 * c < w && !(o.lastResort == LastBoundary && 0 < c) then w else c;
    BoundaryCutInWindow(t, w, o.boundaries, w);
    SearchFinds(t, w, o.boundaries);
    if NonePreferred(t, w, o.boundaries) { ResortIs(t, o, c); }
    assert CutOf(t, w, o.boundaries, o.lastResort, o.surrogateGuard) == Spared(t, p, o);
  }

  /** The parts of a text over the limit: each is cut off where it should be, and the strip class dropped behind it. */
  ghost predicate WellCut(t: Text, parts: seq<Text>, o: Options)
    requires Accepted(o)
    decreases |parts|
  {
    if |t| <= o.safeLimit then parts == if t == [] then [] else [t]
    else
      && parts != [] && parts[0] <= t && CutHere(t, |parts[0]|, o)
      && WellCut(StripRun(t[|parts[0]|..], o.strip), parts[1..], o)
  }

  lemma {:induction false} PiecesWellCut(t: Text, o: Options)
    requires Accepted(o)
    ensures WellCut(t, Pieces(t, o), o)
    decreases |t|
  {
    if |t| > o.safeLimit {
      var c := CutOf(t, o.safeLimit, o.boundaries, o.lastResort, o.surrogateGuard);
      var rest := StripRun(t[c..], o.strip);
      CutIsHere(t, o);
      PiecesWellCut(rest, o);
      assert Pieces(t, o)[0] == t[..c] && Pieces(t, o)[1..] == Pieces(rest, o);
    }
  }

  /** Every part of a split text ends where the boundaries, the last resort and the guard say. */
  lemma {:induction false} PartsEndAtBoundaries(t: Text, o: Options)
    requires Accepted(o) && !o.trimParts && |t| > o.limit
    ensures Split(t, o).Parts? && WellCut(t, Split(t, o).parts, o)
  {
    PiecesWellCut(t, o);
  }

  /** And trimming takes from each part its whitespace at both ends, and the parts that were nothing else. */
  lemma {:induction false} TrimmedParts(t: Text, o: Options) returns (parts: seq<Text>)
    requires Accepted(o) && o.trimParts && |t| > o.limit
    ensures WellCut(t, parts, o) && Split(t, o) == Parts(TrimAll(parts))
  {
    parts := Pieces(t, o);
    PiecesWellCut(t, o);
  }

  predicate NoSpaceAtEnds(p: Text) {
    p != [] && !IsSpace(p[0]) && !IsSpace(p[|p| - 1])
  }

  lemma {:induction false} TrimLeavesNoSpace(t: Text)
    ensures Trim(t) != [] ==> NoSpaceAtEnds(Trim(t))
  {
    var s := TrimStart(t);
    if Trim(t) != [] {
      assert Trim(t) <= s && Trim(t)[0] == s[0];
      assert s[0] == t[RunLength(t, SpaceRun)];
    }
  }

  lemma {:induction false} TrimAllLeavesNoSpace(parts: seq<Text>)
    ensures forall p :: p in TrimAll(parts) ==> NoSpaceAtEnds(p)
  {
    if parts != [] {
      TrimLeavesNoSpace(parts[0]);
      TrimAllLeavesNoSpace(parts[1..]);
    }
  }

  /** Trimmed parts begin and end with no whitespace, and none is empty, whatever the length of the text. */
  lemma {:induction false} TrimmedPartsHaveNoSpace(t: Text, o: Options)
    requires Accepted(o) && o.trimParts
    ensures Split(t, o).Parts? && forall p :: p in Split(t, o).parts ==> NoSpaceAtEnds(p)
  {
    TrimAllLeavesNoSpace(Uncut(t, o));
  }

  // ---- Telegram ----

  /** Where Telegram's raw chunk ends: the last blank line of the second half, else its last line end, else the cap. */
  lemma {:induction false} TelegramPrefersParagraphs(t: Text)
    requires |t| > Telegram.SAFE_CHUNK
    ensures var w, b := Telegram.SAFE_CHUNK, Telegram.Boundary(t);
            if InSecondHalf(t, w, [LF, LF]) then LastAt(t, w, [LF, LF], b)
            else if InSecondHalf(t, w, [LF]) then LastAt(t, w, [LF], b)
            else b == w
  {
    var w := Telegram.SAFE_CHUNK;
    ReachesIs(t, w, [LF, LF]);
    ReachesIs(t, w, [LF]);
    LastAtIs(t, w, [LF, LF], LastIndexOf(t, [LF, LF], w));
    LastAtIs(t, w, [LF], LastIndexOf(t, [LF], w));
  }

  /** What Telegram sends of the raw chunks: each balanced, or raw when nothing would be left, and the rest again. */
  ghost predicate TelegramCut(t: Text, parts: seq<Text>)
    decreases |parts|
  {
    if |t| <= Telegram.SAFE_CHUNK then parts == if t == [] then [] else [t]
    else
      var raw := t[..Telegram.Boundary(t)];
      && parts != []
      && parts[0] == (if Telegram.Balance(raw) != [] then Telegram.Balance(raw) else raw)
      && parts[0] <= t && TelegramCut(StripRun(t[|parts[0]|..], NewlineRun), parts[1..])
  }

  lemma {:induction false} TelegramCutsSo(t: Text)
    ensures TelegramCut(t, Telegram.Chunks(t))
    decreases |t|
  {
    if |t| > Telegram.SAFE_CHUNK {
      var c := Telegram.ChunkOf(t);
      var rest := StripRun(t[|c|..], NewlineRun);
      TelegramCutsSo(rest);
      assert Telegram.Chunks(t)[0] == c && Telegram.Chunks(t)[1..] == Telegram.Chunks(rest);
    }
  }
}
