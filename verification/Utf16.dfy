/**
 JavaScript strings as the sources see them: sequences of UTF-16 code units, with the
 `String.prototype` operations the text code calls. A `Text` may hold lone surrogates.
 */
module Utf16 {

  type CodeUnit = u: int | 0 <= u < 0x1_0000
  type Text = seq<CodeUnit>

  const NUL: CodeUnit := 0
  const BEL: CodeUnit := 7
  const LF: CodeUnit := 10
  const CR: CodeUnit := 13
  const SPACE: CodeUnit := 32

  /** WhiteSpace and LineTerminator of ECMAScript: what `trim` removes and `\s` matches. */
  predicate IsSpace(u: CodeUnit) {
    || 9 <= u <= 13 || u == 32 || u == 0xA0 || u == 0x1680 || 0x2000 <= u <= 0x200A
    || u == 0x2028 || u == 0x2029 || u == 0x202F || u == 0x205F || u == 0x3000 || u == 0xFEFF
  }

  predicate IsHigh(u: CodeUnit) { 0xD800 <= u <= 0xDBFF }

  predicate IsLow(u: CodeUnit) { 0xDC00 <= u <= 0xDFFF }

  predicate IsSurrogate(u: CodeUnit) { IsHigh(u) || IsLow(u) }

  predicate PairedAt(t: Text, i: nat)
    requires i < |t|
  {
    && (IsHigh(t[i]) ==> i + 1 < |t| && IsLow(t[i + 1]))
    && (IsLow(t[i]) ==> 0 < i && IsHigh(t[i - 1]))
  }

  /** Every surrogate is half of a pair. */
  ghost predicate WellFormed(t: Text) {
    forall i :: 0 <= i < |t| ==> PairedAt(t, i)
  }

  lemma {:induction false} WellFormedCut(t: Text, c: nat)
    requires WellFormed(t) && c <= |t|
    requires c == |t| || !IsLow(t[c])
    ensures WellFormed(t[..c]) && WellFormed(t[c..])
  {
    forall i | 0 <= i < c ensures PairedAt(t[..c], i) {
      assert PairedAt(t, i) && (i + 1 < |t| ==> PairedAt(t, i + 1));
    }
    forall i | 0 <= i < |t| - c ensures PairedAt(t[c..], i) {
      assert PairedAt(t, c + i) && (0 < c + i ==> PairedAt(t, c + i - 1));
    }
  }

  /** Whether `p` occurs in `t` at `i`. */
  predicate MatchesAt(t: Text, p: Text, i: int) {
    0 <= i && i + |p| <= |t| && t[i..i + |p|] == p
  }

  predicate LeastMatch(t: Text, p: Text, from: int, r: int) {
    from <= r && MatchesAt(t, p, r) && forall i :: from <= i < r ==> !MatchesAt(t, p, i)
  }

  lemma {:induction false} LeastMatchExists(t: Text, p: Text, from: int, i: int)
    requires from <= i && MatchesAt(t, p, i)
    ensures exists r :: from <= r <= |t| && LeastMatch(t, p, from, r)
    decreases i - from
  {
    if k :| from <= k < i && MatchesAt(t, p, k) {
      LeastMatchExists(t, p, from, k);
    } else {
      assert LeastMatch(t, p, from, i);
    }
  }

  lemma {:induction false} NoLeastMatch(t: Text, p: Text, from: int)
    requires !exists r :: from <= r <= |t| && LeastMatch(t, p, from, r)
    ensures forall i :: from <= i ==> !MatchesAt(t, p, i)
  {
    if i :| from <= i && MatchesAt(t, p, i) {
      LeastMatchExists(t, p, from, i);
    }
  }

  /** `t.indexOf(p, from)`: the least position from `from` on where `p` occurs, or -1. */
  function IndexOf(t: Text, p: Text, from: nat): (r: int)
    ensures r == -1 ==> forall i :: from <= i ==> !MatchesAt(t, p, i)
    ensures r != -1 ==> from <= r && MatchesAt(t, p, r) && forall i :: from <= i < r ==> !MatchesAt(t, p, i)
  {
    if exists r :: from <= r <= |t| && LeastMatch(t, p, from, r) then
      var r :| from <= r <= |t| && LeastMatch(t, p, from, r);
      r
    else
      NoLeastMatch(t, p, from);
      -1
  }

  predicate GreatestMatch(t: Text, p: Text, from: int, r: int) {
    r <= from && MatchesAt(t, p, r) && forall i :: r < i <= from ==> !MatchesAt(t, p, i)
  }

  lemma {:induction false} GreatestMatchExists(t: Text, p: Text, from: int, i: int)
    requires i <= from && MatchesAt(t, p, i)
    ensures exists r :: 0 <= r <= from && GreatestMatch(t, p, from, r)
    decreases from - i
  {
    if k :| i < k <= from && MatchesAt(t, p, k) {
      GreatestMatchExists(t, p, from, k);
    } else {
      assert GreatestMatch(t, p, from, i);
    }
  }

  lemma {:induction false} NoGreatestMatch(t: Text, p: Text, from: int)
    requires !exists r :: 0 <= r <= from && GreatestMatch(t, p, from, r)
    ensures forall i :: i <= from ==> !MatchesAt(t, p, i)
  {
    if i :| i <= from && MatchesAt(t, p, i) {
      GreatestMatchExists(t, p, from, i);
    }
  }

  /** `t.lastIndexOf(p, from)`: the greatest position up to `from` where `p` occurs, or -1. */
  function LastIndexOf(t: Text, p: Text, from: int): (r: int)
    ensures -1 <= r && (r == -1 || r <= from)
    ensures r == -1 ==> forall i :: i <= from ==> !MatchesAt(t, p, i)
    ensures r != -1 ==> MatchesAt(t, p, r) && forall i :: r < i <= from ==> !MatchesAt(t, p, i)
  {
    if exists r :: 0 <= r <= from && GreatestMatch(t, p, from, r) then
      var r :| 0 <= r <= from && GreatestMatch(t, p, from, r);
      r
    else
      NoGreatestMatch(t, p, from);
      -1
  }

  lemma {:induction false} PrefixMatch(t: Text, k: nat, p: Text, i: int)
    requires k <= |t|
    ensures MatchesAt(t[..k], p, i) <==> MatchesAt(t, p, i) && i + |p| <= k
  {
  }

  /** The contract of `IndexOf` leaves it no choice. */
  lemma {:induction false} IndexIs(t: Text, p: Text, from: nat, r: int)
    requires from <= |t|
    requires r == -1 || (from <= r && MatchesAt(t, p, r))
    requires forall i :: from <= i && (r == -1 || i < r) ==> !MatchesAt(t, p, i)
    ensures IndexOf(t, p, from) == r
  {
  }

  /** Two runs the splitters drop at a cut: `/^\n+/` and `/^\s+/`. */
  datatype RunClass = NewlineRun | SpaceRun {
    predicate Covers(u: CodeUnit) {
      if NewlineRun? then u == LF else IsSpace(u)
    }
  }

  ghost predicate AllCovered(t: Text, c: RunClass) {
    forall i :: 0 <= i < |t| ==> c.Covers(t[i])
  }

  /** The length of the longest prefix of `t` made of units of the class. */
  function RunLength(t: Text, c: RunClass): (n: nat)
    ensures n <= |t| && AllCovered(t[..n], c)
    ensures forall i :: 0 <= i < n ==> c.Covers(t[i])
    ensures n < |t| ==> !c.Covers(t[n])
  {
    if t == [] || !c.Covers(t[0]) then 0
    else
      var n := RunLength(t[1..], c);
      assert t[..1 + n] == [t[0]] + t[1..][..n];
      1 + n
  }

  /** `t.replace(/^\n+/, "")` or `t.replace(/^\s+/, "")`. */
  function StripRun(t: Text, c: RunClass): Text {
    t[RunLength(t, c)..]
  }

  /** `t.trimStart()`. */
  function TrimStart(t: Text): Text {
    StripRun(t, SpaceRun)
  }

  /** `t.trimEnd()`. */
  function TrimEnd(t: Text): (r: Text)
    ensures r <= t && AllCovered(t[|r|..], SpaceRun)
    ensures r != [] ==> !IsSpace(r[|r| - 1])
  {
    if t == [] || !IsSpace(t[|t| - 1]) then t
    else
      var r := TrimEnd(t[..|t| - 1]);
      assert t[|r|..] == t[..|t| - 1][|r|..] + [t[|t| - 1]];
      r
  }

  /** `t.trim()`. */
  function Trim(t: Text): Text {
    TrimEnd(TrimStart(t))
  }

  lemma {:induction false} WellFormedStrip(t: Text, c: RunClass)
    requires WellFormed(t)
    ensures WellFormed(StripRun(t, c))
  {
    var n := RunLength(t, c);
    assert 0 < n ==> t[..n][n - 1] == t[n - 1] && !IsSurrogate(t[n - 1]);
    assert n < |t| ==> PairedAt(t, n);
    WellFormedCut(t, n);
  }

  lemma {:induction false} WellFormedTrimEnd(t: Text)
    requires WellFormed(t)
    ensures WellFormed(TrimEnd(t))
  {
    var r := TrimEnd(t);
    if |r| < |t| {
      assert IsSpace(t[|r|..][0]) && t[|r|] == t[|r|..][0];
      WellFormedCut(t, |r|);
    }
    assert r == t[..|r|];
  }

  /** The pieces one after another. */
  function Concat(parts: seq<Text>): Text {
    if parts == [] then [] else parts[0] + Concat(parts[1..])
  }

  lemma {:induction false} ConcatAppend(a: seq<Text>, b: seq<Text>)
    ensures Concat(a + b) == Concat(a) + Concat(b)
  {
    if a == [] {
      assert a + b == b;
    } else {
      assert (a + b)[1..] == a[1..] + b;
      ConcatAppend(a[1..], b);
    }
  }

  /** `t.split(sep)` for a one-unit separator: never empty. */
  function SplitOn(t: Text, sep: CodeUnit): (parts: seq<Text>)
    ensures |parts| > 0
    ensures forall p :: p in parts ==> sep !in p
  {
    var at := IndexOf(t, [sep], 0);
    if at == -1 then
      assert forall i :: 0 <= i < |t| && t[i] == sep ==> MatchesAt(t, [sep], i);
      [t]
    else
      assert forall i :: 0 <= i < at && t[i] == sep ==> MatchesAt(t, [sep], i);
      [t[..at]] + SplitOn(t[at + 1..], sep)
  }

  /** `parts.join(sep)` for a one-unit separator. */
  function JoinWith(parts: seq<Text>, sep: CodeUnit): Text
    requires |parts| > 0
  {
    if |parts| == 1 then parts[0] else parts[0] + [sep] + JoinWith(parts[1..], sep)
  }

  lemma {:induction false} MatchesUnit(t: Text, u: CodeUnit, i: int)
    ensures MatchesAt(t, [u], i) <==> 0 <= i < |t| && t[i] == u
  {
  }

  /** The first occurrence of a unit that `head` does not hold, right after `head`. */
  lemma {:induction false} IndexAfter(head: Text, sep: CodeUnit, tail: Text)
    requires sep !in head
    ensures IndexOf(head + [sep] + tail, [sep], 0) == |head|
  {
    var t := head + [sep] + tail;
    assert MatchesAt(t, [sep], |head|);
    forall i | 0 <= i < |head| ensures !MatchesAt(t, [sep], i) {
      assert t[i..i + 1][0] == head[i];
    }
  }

  lemma {:induction false} IndexNone(t: Text, sep: CodeUnit)
    requires sep !in t
    ensures IndexOf(t, [sep], 0) == -1
  {
    forall i ensures !MatchesAt(t, [sep], i) {
      MatchesUnit(t, sep, i);
    }
  }

  /** Splitting undoes joining when no part holds the separator. */
  lemma {:induction false} SplitOfJoin(parts: seq<Text>, sep: CodeUnit)
    requires |parts| > 0
    requires forall p :: p in parts ==> sep !in p
    ensures SplitOn(JoinWith(parts, sep), sep) == parts
  {
    if |parts| == 1 {
      IndexNone(parts[0], sep);
    } else {
      var rest := JoinWith(parts[1..], sep);
      IndexAfter(parts[0], sep, rest);
      var t := JoinWith(parts, sep);
      assert t[..|parts[0]|] == parts[0] && t[|parts[0]| + 1..] == rest;
      SplitOfJoin(parts[1..], sep);
    }
  }

  /** The units outside a class, in order. */
  function Outside(t: Text, c: RunClass): Text {
    if t == [] then []
    else (if c.Covers(t[0]) then [] else [t[0]]) + Outside(t[1..], c)
  }

  lemma {:induction false} OutsideAppend(a: Text, b: Text, c: RunClass)
    ensures Outside(a + b, c) == Outside(a, c) + Outside(b, c)
  {
    if a == [] {
      assert a + b == b;
    } else {
      var head: Text := if c.Covers(a[0]) then [] else [a[0]];
      OutsideAppend(a[1..], b, c);
      assert (a + b)[0] == a[0] && (a + b)[1..] == a[1..] + b;
      assert Outside(a + b, c) == head + Outside(a[1..] + b, c);
      assert head + (Outside(a[1..], c) + Outside(b, c)) == head + Outside(a[1..], c) + Outside(b, c);
    }
  }

  lemma {:induction false} OutsideCovered(t: Text, c: RunClass)
    requires AllCovered(t, c)
    ensures Outside(t, c) == []
  {
    if t != [] {
      OutsideCovered(t[1..], c);
    }
  }
}

/**
 What a splitter owes its caller: the parts, with the runs dropped at the cuts put back, are the
 text. A run is dropped after a part, so nothing is ever dropped before the first one.
 */
module Rejoining {
  import opened Utf16

  function Interleave(parts: seq<Text>, gaps: seq<Text>): Text
    requires |parts| == |gaps|
  {
    if parts == [] then [] else parts[0] + gaps[0] + Interleave(parts[1..], gaps[1..])
  }

  ghost predicate RejoinsBy(parts: seq<Text>, gaps: seq<Text>, text: Text, c: RunClass) {
    && |parts| == |gaps|
    && (forall g :: g in gaps ==> AllCovered(g, c))
    && Interleave(parts, gaps) == text
  }

  ghost predicate Rejoins(parts: seq<Text>, text: Text, c: RunClass) {
    exists gaps :: RejoinsBy(parts, gaps, text, c)
  }

  lemma {:induction false} InterleaveAppend(p: seq<Text>, g: seq<Text>, q: seq<Text>, h: seq<Text>)
    requires |p| == |g| && |q| == |h|
    ensures Interleave(p + q, g + h) == Interleave(p, g) + Interleave(q, h)
  {
    if p == [] {
      assert p + q == q && g + h == h;
    } else {
      assert (p + q)[1..] == p[1..] + q && (g + h)[1..] == g[1..] + h;
      InterleaveAppend(p[1..], g[1..], q, h);
    }
  }

  lemma {:induction false} RejoinsCons(part: Text, gap: Text, rest: seq<Text>, tail: Text, c: RunClass)
    requires AllCovered(gap, c) && Rejoins(rest, tail, c)
    ensures Rejoins([part] + rest, part + gap + tail, c)
  {
    var gaps :| RejoinsBy(rest, gaps, tail, c);
    assert ([part] + rest)[1..] == rest && ([gap] + gaps)[1..] == gaps;
    assert RejoinsBy([part] + rest, [gap] + gaps, part + gap + tail, c);
  }

  /** The step of every splitter: cut at `k`, drop the run that follows, go on with the rest. */
  lemma {:induction false} RejoinsAtCut(t: Text, k: nat, rest: seq<Text>, c: RunClass)
    requires k <= |t| && Rejoins(rest, StripRun(t[k..], c), c)
    ensures Rejoins([t[..k]] + rest, t, c)
  {
    var tail := t[k..];
    var n := RunLength(tail, c);
    assert t == t[..k] + tail[..n] + tail[n..];
    RejoinsCons(t[..k], tail[..n], rest, tail[n..], c);
  }

  lemma {:induction false} RejoinsWhole(text: Text, c: RunClass)
    ensures Rejoins([text], text, c)
  {
    assert Interleave([text], [[]]) == text + [] + Interleave([], []);
    assert RejoinsBy([text], [[]], text, c);
  }

  /** A longer last gap only adds at the end. */
  lemma {:induction false} InterleaveLonger(p: seq<Text>, g: seq<Text>, gap: Text)
    requires |p| == |g| && p != []
    ensures Interleave(p, g[..|g| - 1] + [g[|g| - 1] + gap]) == Interleave(p, g) + gap
    decreases |p|
  {
    if |p| == 1 {
      assert g[..0] + [g[0] + gap] == [g[0] + gap];
      assert p[0] + (g[0] + gap) + [] == p[0] + g[0] + [] + gap;
    } else {
      InterleaveLonger(p[1..], g[1..], gap);
      assert (g[..|g| - 1] + [g[|g| - 1] + gap])[1..] == g[1..][..|g| - 2] + [g[|g| - 1] + gap];
    }
  }

  /** A part replaced by its own splitting, its gap now after the last of them. */
  lemma {:induction false} RejoinsNested(
      inner: seq<Text>, part: Text, gap: Text, rest: seq<Text>, tail: Text, c: RunClass)
    requires inner != [] && Rejoins(inner, part, c)
    requires AllCovered(gap, c) && Rejoins(rest, tail, c)
    ensures Rejoins(inner + rest, part + gap + tail, c)
  {
    var ig :| RejoinsBy(inner, ig, part, c);
    var gs :| RejoinsBy(rest, gs, tail, c);
    var n := |inner| - 1;
    var ig' := ig[..n] + [ig[n] + gap];
    InterleaveLonger(inner, ig, gap);
    assert AllCovered(ig[n], c);
    assert RejoinsBy(inner, ig', part + gap, c);
    RejoinsAppend(inner, ig', part + gap, rest, gs, tail, c);
  }

  lemma {:induction false} RejoinsAppend(
      p: seq<Text>, g: seq<Text>, s: Text, q: seq<Text>, h: seq<Text>, t: Text, c: RunClass)
    requires RejoinsBy(p, g, s, c) && RejoinsBy(q, h, t, c)
    ensures Rejoins(p + q, s + t, c)
  {
    InterleaveAppend(p, g, q, h);
    assert RejoinsBy(p + q, g + h, s + t, c);
  }

  /** Nothing but units of the class is lost. */
  lemma {:induction false} RejoinsKeepsOutside(parts: seq<Text>, text: Text, c: RunClass)
    requires Rejoins(parts, text, c)
    ensures Outside(Concat(parts), c) == Outside(text, c)
  {
    var gaps :| RejoinsBy(parts, gaps, text, c);
    InterleaveOutside(parts, gaps, c);
  }

  lemma {:induction false} InterleaveOutside(parts: seq<Text>, gaps: seq<Text>, c: RunClass)
    requires |parts| == |gaps|
    requires forall g :: g in gaps ==> AllCovered(g, c)
    ensures Outside(Interleave(parts, gaps), c) == Outside(Concat(parts), c)
  {
    if parts != [] {
      var rest := Interleave(parts[1..], gaps[1..]);
      OutsideAppend(parts[0] + gaps[0], rest, c);
      OutsideAppend(parts[0], gaps[0], c);
      OutsideCovered(gaps[0], c);
      OutsideAppend(parts[0], Concat(parts[1..]), c);
      InterleaveOutside(parts[1..], gaps[1..], c);
    }
  }
}
