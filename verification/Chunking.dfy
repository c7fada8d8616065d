/** The boundary-preferring splitter shared by the adapters (packages/gateway/src/text/chunk.ts). */
module Chunking {
  import opened Utf16
  import opened Rejoining

  datatype LastResort = LastBoundary | Window

  datatype Options = Options(
    limit: int,
    safeLimit: int,
    boundaries: seq<Text>,
    lastResort: LastResort,
    surrogateGuard: bool,
    strip: RunClass,
    trimParts: bool
  )

  datatype RangeError = NotPositive | SafeLimitAboveLimit
  datatype Result = Parts(parts: seq<Text>) | Refused(error: RangeError)

  predicate Accepted(o: Options) {
    0 < o.safeLimit <= o.limit
  }

  /** The boundary's last position inside the window is in the second half of it. */
  predicate Reaches(t: Text, window: nat, b: Text) {
    2 * LastIndexOf(t, b, window) >= window
  }

  // ---- specification of one cut ----

  function BoundaryCut(t: Text, window: nat, boundaries: seq<Text>, cut: int): int {
    if boundaries == [] then cut
    else
      var c := LastIndexOf(t, boundaries[0], window);
      if 2 * c >= window then c else BoundaryCut(t, window, boundaries[1..], c)
  }

  function GuardSurrogate(t: Text, cut: int): int
    requires 0 <= cut
  {
    if cut < |t| && IsLow(t[cut]) then cut - 1 else cut
  }

  function CutOf(t: Text, window: nat, boundaries: seq<Text>, lastResort: LastResort, guard: bool): (cut: int)
    requires 0 < window
    ensures 1 <= cut <= window
  {
    BoundaryCutInWindow(t, window, boundaries, window);
    var searched := BoundaryCut(t, window, boundaries, window);
    var settled := if 2 * searched < window && !(lastResort == LastBoundary && 0 < searched) then window else searched;
    var cut := if guard then GuardSurrogate(t, settled) else settled;
    if cut <= 0 then window else cut
  }

  lemma {:induction false} BoundaryCutInWindow(t: Text, window: nat, boundaries: seq<Text>, cut: int)
    requires -1 <= cut <= window
    ensures -1 <= BoundaryCut(t, window, boundaries, cut) <= window
  {
    if boundaries != [] {
      BoundaryCutInWindow(t, window, boundaries[1..], LastIndexOf(t, boundaries[0], window));
    }
  }

  /** The documented preference: the first boundary that reaches the second half of the window is cut at. */
  lemma {:induction false} BoundaryPreference(t: Text, window: nat, boundaries: seq<Text>, cut: int, j: nat)
    requires j < |boundaries| && Reaches(t, window, boundaries[j])
    requires forall k :: 0 <= k < j ==> !Reaches(t, window, boundaries[k])
    ensures BoundaryCut(t, window, boundaries, cut) == LastIndexOf(t, boundaries[j], window)
    decreases |boundaries|
  {
    if j > 0 {
      assert !Reaches(t, window, boundaries[0]);
      assert forall k :: 0 <= k < j - 1 ==> boundaries[1..][k] == boundaries[k + 1];
      BoundaryPreference(t, window, boundaries[1..], LastIndexOf(t, boundaries[0], window), j - 1);
    }
  }

  /** When none does, the last boundary tried gives the cut. */
  lemma {:induction false} LastBoundaryTried(t: Text, window: nat, boundaries: seq<Text>, cut: int)
    requires boundaries != [] && forall k :: 0 <= k < |boundaries| ==> !Reaches(t, window, boundaries[k])
    ensures BoundaryCut(t, window, boundaries, cut) == LastIndexOf(t, boundaries[|boundaries| - 1], window)
    decreases |boundaries|
  {
    assert !Reaches(t, window, boundaries[0]);
    var c := LastIndexOf(t, boundaries[0], window);
    if |boundaries| > 1 {
      assert forall k :: 0 <= k < |boundaries| - 1 ==> boundaries[1..][k] == boundaries[k + 1];
      LastBoundaryTried(t, window, boundaries[1..], c);
    } else {
      assert BoundaryCut(t, window, boundaries[1..], c) == c;
    }
  }

  // ---- specification of the whole split ----

  function Pieces(t: Text, o: Options): seq<Text>
    requires Accepted(o)
    decreases |t|
  {
    if |t| > o.safeLimit then
      var cut := CutOf(t, o.safeLimit, o.boundaries, o.lastResort, o.surrogateGuard);
      [t[..cut]] + Pieces(StripRun(t[cut..], o.strip), o)
    else if |t| > 0 then [t]
    else []
  }

  function TrimAll(parts: seq<Text>): seq<Text> {
    if parts == [] then []
    else
      var p := Trim(parts[0]);
      (if |p| > 0 then [p] else []) + TrimAll(parts[1..])
  }

  function Finalize(parts: seq<Text>, o: Options): seq<Text> {
    if o.trimParts then TrimAll(parts) else parts
  }

  function Uncut(t: Text, o: Options): seq<Text>
    requires Accepted(o)
  {
    if |t| <= o.limit then [t] else Pieces(t, o)
  }

  function Split(t: Text, o: Options): Result {
    if o.limit <= 0 || o.safeLimit <= 0 then Refused(NotPositive)
    else if o.safeLimit > o.limit then Refused(SafeLimitAboveLimit)
    else Parts(Finalize(Uncut(t, o), o))
  }

  // ---- the loops of the source ----

  method SearchBoundary(remaining: Text, window: nat, boundaries: seq<Text>) returns (cut: int)
    ensures cut == BoundaryCut(remaining, window, boundaries, window)
  {
    cut := window;
    for i := 0 to |boundaries|
      invariant BoundaryCut(remaining, window, boundaries[i..], cut)
             == BoundaryCut(remaining, window, boundaries, window)
    {
      cut := LastIndexOf(remaining, boundaries[i], window);
      assert boundaries[i..][0] == boundaries[i] && boundaries[i..][1..] == boundaries[i + 1..];
      if 2 * cut >= window { return; }
    }
  }

  method FindCut(remaining: Text, window: nat, boundaries: seq<Text>, lastResort: LastResort, guard: bool)
    returns (cut: int)
    requires 0 < window
    ensures cut == CutOf(remaining, window, boundaries, lastResort, guard)
  {
    cut := SearchBoundary(remaining, window, boundaries);
    BoundaryCutInWindow(remaining, window, boundaries, window);
    if 2 * cut < window {
      cut := if lastResort == LastBoundary && cut > 0 then cut else window;
    }
    if guard { cut := GuardSurrogate(remaining, cut); }
    cut := if cut <= 0 then window else cut;
  }

  lemma {:induction false} PiecesStep(parts: seq<Text>, t: Text, o: Options)
    requires Accepted(o) && |t| > o.safeLimit
    ensures var cut := CutOf(t, o.safeLimit, o.boundaries, o.lastResort, o.surrogateGuard);
            parts + Pieces(t, o) == (parts + [t[..cut]]) + Pieces(StripRun(t[cut..], o.strip), o)
  {
  }

  method ChunkText(text: Text, o: Options) returns (r: Result)
    ensures r == Split(text, o)
  {
    if o.limit <= 0 || o.safeLimit <= 0 { return Refused(NotPositive); }
    if o.safeLimit > o.limit { return Refused(SafeLimitAboveLimit); }
    if |text| <= o.limit { return Parts(Finalize([text], o)); }
    var parts: seq<Text> := [];
    var remaining := text;
    ghost var whole := Pieces(text, o);
    while |remaining| > o.safeLimit
      invariant parts + Pieces(remaining, o) == whole
      decreases |remaining|
    {
      var cut := FindCut(remaining, o.safeLimit, o.boundaries, o.lastResort, o.surrogateGuard);
      PiecesStep(parts, remaining, o);
      parts := parts + [remaining[..cut]];
      remaining := StripRun(remaining[cut..], o.strip);
    }
    if |remaining| > 0 { parts := parts + [remaining]; }
    assert parts == whole;
    r := Parts(Finalize(parts, o));
  }

  // ---- what the split promises ----

  lemma {:induction false} TrimAllWithin(parts: seq<Text>, n: nat)
    requires forall p :: p in parts ==> |p| <= n
    ensures forall p :: p in TrimAll(parts) ==> 0 < |p| <= n
  {
    if parts != [] {
      TrimAllWithin(parts[1..], n);
    }
  }

  lemma {:induction false} PiecesWithin(t: Text, o: Options)
    requires Accepted(o)
    ensures forall p :: p in Pieces(t, o) ==> 0 < |p| <= o.safeLimit
    decreases |t|
  {
    if |t| > o.safeLimit {
      var cut := CutOf(t, o.safeLimit, o.boundaries, o.lastResort, o.surrogateGuard);
      PiecesWithin(StripRun(t[cut..], o.strip), o);
    }
  }

  /** The hard cap: no part passes `limit`, nor `safeLimit` once the text was cut. */
  lemma {:induction false} PartsWithinLimit(t: Text, o: Options)
    requires Accepted(o)
    ensures Split(t, o).Parts?
    ensures forall p :: p in Split(t, o).parts ==> |p| <= (if |t| <= o.limit then o.limit else o.safeLimit)
    ensures t != [] || o.trimParts ==> forall p :: p in Split(t, o).parts ==> p != []
  {
    if |t| > o.limit {
      PiecesWithin(t, o);
      TrimAllWithin(Pieces(t, o), o.safeLimit);
    } else {
      TrimAllWithin([t], o.limit);
    }
  }

  lemma {:induction false} PiecesRejoin(t: Text, o: Options)
    requires Accepted(o)
    ensures Rejoins(Pieces(t, o), t, o.strip)
    decreases |t|
  {
    if |t| > o.safeLimit {
      var cut := CutOf(t, o.safeLimit, o.boundaries, o.lastResort, o.surrogateGuard);
      var rest := StripRun(t[cut..], o.strip);
      PiecesRejoin(rest, o);
      RejoinsAtCut(t, cut, Pieces(rest, o), o.strip);
    } else if t == [] {
      assert RejoinsBy([], [], t, o.strip);
    } else {
      RejoinsWhole(t, o.strip);
    }
  }

  /** Untrimmed, the parts rejoin to the text with only runs of the strip class between them. */
  lemma {:induction false} UncutRejoins(t: Text, o: Options)
    requires Accepted(o)
    ensures Rejoins(Uncut(t, o), t, o.strip)
    ensures !o.trimParts ==> Rejoins(Split(t, o).parts, t, o.strip)
  {
    if |t| <= o.limit {
      RejoinsWhole(t, o.strip);
    } else {
      PiecesRejoin(t, o);
    }
  }

  lemma {:induction false} OutsideSpacesOfNewlines(t: Text)
    ensures Outside(Outside(t, NewlineRun), SpaceRun) == Outside(t, SpaceRun)
  {
    if t != [] {
      OutsideSpacesOfNewlines(t[1..]);
      OutsideAppend(if t[0] == LF then [] else [t[0]], Outside(t[1..], NewlineRun), SpaceRun);
    }
  }

  /** Dropping whitespace from both ends leaves the characters outside it. */
  lemma {:induction false} EndsOutside(head: Text, r: Text, tail: Text)
    requires AllCovered(head, SpaceRun) && AllCovered(tail, SpaceRun)
    ensures Outside(head + (r + tail), SpaceRun) == Outside(r, SpaceRun)
  {
    OutsideAppend(head, r + tail, SpaceRun);
    OutsideAppend(r, tail, SpaceRun);
    OutsideCovered(head, SpaceRun);
    OutsideCovered(tail, SpaceRun);
  }

  lemma {:induction false} TrimOutside(t: Text)
    ensures Outside(Trim(t), SpaceRun) == Outside(t, SpaceRun)
  {
    var n := RunLength(t, SpaceRun);
    TrimmedOutside(t, n, t[n..], TrimEnd(t[n..]));
  }

  lemma {:induction false} TrimmedOutside(t: Text, n: nat, s: Text, r: Text)
    requires n <= |t| && s == t[n..] && r <= s
    requires AllCovered(t[..n], SpaceRun) && AllCovered(s[|r|..], SpaceRun)
    ensures Outside(r, SpaceRun) == Outside(t, SpaceRun)
  {
    assert t == t[..n] + s && s == r + s[|r|..];
    EndsOutside(t[..n], r, s[|r|..]);
  }

  lemma {:induction false} TrimAllOutside(parts: seq<Text>)
    ensures Outside(Concat(TrimAll(parts)), SpaceRun) == Outside(Concat(parts), SpaceRun)
  {
    if parts != [] {
      var p := Trim(parts[0]);
      TrimOutside(parts[0]);
      TrimAllOutside(parts[1..]);
      OutsideAppend(parts[0], Concat(parts[1..]), SpaceRun);
      OutsideAppend(p, Concat(TrimAll(parts[1..])), SpaceRun);
      if p != [] {
        assert TrimAll(parts)[1..] == TrimAll(parts[1..]);
      } else {
        assert TrimAll(parts) == TrimAll(parts[1..]);
        assert p + Concat(TrimAll(parts[1..])) == Concat(TrimAll(parts[1..]));
      }
    }
  }

  /** Whatever the options, no character that is not whitespace is lost, added or moved. */
  lemma {:induction false} NonSpacesConserved(t: Text, o: Options)
    requires Accepted(o)
    ensures Outside(Concat(Split(t, o).parts), SpaceRun) == Outside(t, SpaceRun)
  {
    UncutRejoins(t, o);
    RejoinsKeepsNonSpaces(Uncut(t, o), t, o.strip);
    TrimAllOutside(Uncut(t, o));
  }

  lemma {:induction false} RejoinsKeepsNonSpaces(parts: seq<Text>, t: Text, c: RunClass)
    requires Rejoins(parts, t, c)
    ensures Outside(Concat(parts), SpaceRun) == Outside(t, SpaceRun)
  {
    RejoinsKeepsOutside(parts, t, c);
    OutsideSpacesOfNewlines(Concat(parts));
    OutsideSpacesOfNewlines(t);
  }

  // ---- the surrogate guard ----

  predicate HasSurrogate(t: Text) {
    exists i :: 0 <= i < |t| && IsSurrogate(t[i])
  }

  ghost predicate AllWellFormed(parts: seq<Text>) {
    forall p :: p in parts ==> WellFormed(p)
  }

  ghost predicate PlainBoundaries(o: Options) {
    forall b :: b in o.boundaries ==> !HasSurrogate(b)
  }

  lemma {:induction false} BoundaryCutKind(t: Text, window: nat, boundaries: seq<Text>, cut: int)
    requires forall b :: b in boundaries ==> !HasSurrogate(b)
    requires cut <= 0 || cut == window || (cut < |t| && !IsSurrogate(t[cut]))
    requires window < |t|
    ensures var c := BoundaryCut(t, window, boundaries, cut);
            c <= 0 || c == window || (c < |t| && !IsSurrogate(t[c]))
  {
    if boundaries != [] {
      var b := boundaries[0];
      var c := LastIndexOf(t, b, window);
      assert !HasSurrogate(b);
      if b == [] {
        assert MatchesAt(t, b, window);
      } else if 0 < c {
        assert t[c..c + |b|][0] == b[0];
      }
      BoundaryCutKind(t, window, boundaries[1..], c);
    }
  }

  /** With room for a pair the guard never lets a cut fall inside one. */
  lemma {:induction false} CutKeepsPairs(t: Text, o: Options)
    requires Accepted(o) && o.surrogateGuard && 2 <= o.safeLimit < |t|
    requires PlainBoundaries(o) && WellFormed(t)
    ensures var cut := CutOf(t, o.safeLimit, o.boundaries, o.lastResort, true); !IsLow(t[cut])
  {
    var w := o.safeLimit;
    BoundaryCutKind(t, w, o.boundaries, w);
    assert PairedAt(t, w) && PairedAt(t, w - 1);
  }

  lemma {:induction false} PiecesWellFormed(t: Text, o: Options)
    requires Accepted(o) && o.surrogateGuard && 2 <= o.safeLimit
    requires PlainBoundaries(o) && WellFormed(t)
    ensures AllWellFormed(Pieces(t, o))
    decreases |t|
  {
    if |t| > o.safeLimit {
      CutKeepsPairs(t, o);
      var cut := CutOf(t, o.safeLimit, o.boundaries, o.lastResort, true);
      WellFormedCut(t, cut);
      WellFormedStrip(t[cut..], o.strip);
      PiecesWellFormed(StripRun(t[cut..], o.strip), o);
    }
  }

  lemma {:induction false} TrimAllWellFormed(parts: seq<Text>)
    requires AllWellFormed(parts)
    ensures AllWellFormed(TrimAll(parts))
  {
    if parts != [] {
      WellFormedStrip(parts[0], SpaceRun);
      WellFormedTrimEnd(TrimStart(parts[0]));
      TrimAllWellFormed(parts[1..]);
    }
  }

  ghost predicate SeversPair(parts: seq<Text>) {
    exists p :: p in parts && |p| == 1 && IsSurrogate(p[0])
  }

  lemma {:induction false} SurrogateSurvivesStrip(t: Text, c: RunClass)
    requires HasSurrogate(t)
    ensures HasSurrogate(StripRun(t, c))
  {
  }

  /** A window of one unit severs every pair it meets. */
  lemma {:induction false} WindowOfOneSevers(t: Text, o: Options)
    requires Accepted(o) && o.safeLimit == 1 && HasSurrogate(t)
    ensures SeversPair(Pieces(t, o))
    decreases |t|
  {
    if |t| > 1 {
      var next := StripRun(t[1..], o.strip);
      assert Pieces(t, o) == [t[..1]] + Pieces(next, o);
      if IsSurrogate(t[0]) {
        assert t[..1] in Pieces(t, o);
      } else {
        var i :| 0 <= i < |t| && IsSurrogate(t[i]);
        assert t[1..][i - 1] == t[i];
        SurrogateSurvivesStrip(t[1..], o.strip);
        WindowOfOneSevers(next, o);
        var p :| p in Pieces(next, o) && |p| == 1 && IsSurrogate(p[0]);
        assert p in Pieces(t, o);
      }
    } else {
      assert t in Pieces(t, o);
    }
  }

  lemma {:induction false} TrimAllKeepsSurrogate(parts: seq<Text>, p: Text)
    requires p in parts && |p| == 1 && IsSurrogate(p[0])
    ensures p in TrimAll(parts)
  {
    if parts[0] == p {
      assert RunLength(p, SpaceRun) == 0 && Trim(p) == p;
    } else {
      TrimAllKeepsSurrogate(parts[1..], p);
    }
  }

  lemma {:induction false} SurrogateFreeWellFormed(t: Text)
    requires !HasSurrogate(t)
    ensures WellFormed(t)
  {
  }

  lemma {:induction false} PiecesSurrogateFree(t: Text, o: Options)
    requires Accepted(o) && !HasSurrogate(t)
    ensures AllWellFormed(Pieces(t, o))
    decreases |t|
  {
    SurrogateFreeWellFormed(t);
    if |t| > o.safeLimit {
      var cut := CutOf(t, o.safeLimit, o.boundaries, o.lastResort, o.surrogateGuard);
      var rest := t[cut..];
      var n := RunLength(rest, o.strip);
      SurrogateFreeCut(t, cut);
      SurrogateFreeCut(rest, n);
      SurrogateFreeWellFormed(t[..cut]);
      PiecesSurrogateFree(rest[n..], o);
    }
  }

  lemma {:induction false} SurrogateFreeCut(t: Text, c: nat)
    requires !HasSurrogate(t) && c <= |t|
    ensures !HasSurrogate(t[..c]) && !HasSurrogate(t[c..])
  {
    assert forall i :: 0 <= i < c ==> t[..c][i] == t[i];
    assert forall i :: 0 <= i < |t| - c ==> t[c..][i] == t[c + i];
  }

  /**
   The guard under boundaries free of surrogates: a well-formed text gives only well-formed parts
   exactly when the window has room for a pair, or nothing is cut, or there is no pair to sever.
   */
  lemma {:induction false} GuardedPartsWellFormed(t: Text, o: Options)
    requires Accepted(o) && o.surrogateGuard && PlainBoundaries(o) && WellFormed(t)
    ensures AllWellFormed(Split(t, o).parts) <==> 2 <= o.safeLimit || |t| <= o.limit || !HasSurrogate(t)
  {
    var parts := Uncut(t, o);
    if |t| <= o.limit {
      assert AllWellFormed([t]);
    } else if 2 <= o.safeLimit {
      PiecesWellFormed(t, o);
    } else if !HasSurrogate(t) {
      PiecesSurrogateFree(t, o);
    } else {
      WindowOfOneSevers(t, o);
      var p :| p in parts && |p| == 1 && IsSurrogate(p[0]);
      TrimAllKeepsSurrogate(parts, p);
      assert !PairedAt(p, 0);
    }
    if 2 <= o.safeLimit || |t| <= o.limit || !HasSurrogate(t) {
      TrimAllWellFormed(parts);
    }
  }
}
