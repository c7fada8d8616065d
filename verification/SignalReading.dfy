/**
 Which runs Signal's reader finds, said of the text alone, and that it reads back what was marked
 (packages/gateway-signal/src/text-style.ts).
 */
module SignalReading {
  import opened Utf16
  import opened Signal

  // ---- when a run is found ----

  /** A marker opens at `i`: a star alone only when no second one follows. */
  predicate Opens(t: Text, i: nat, marker: Text, style: Style) {
    && MatchesAt(t, marker, i)
    && match style
       case BOLD => marker == [STAR, STAR]
       case STRIKETHROUGH => marker == [TILDE, TILDE]
       case MONOSPACE => marker == [TICK]
       case ITALIC => marker == [UNDERSCORE] || (marker == [STAR] && !MatchesAt(t, [STAR, STAR], i))
  }

  /** Its next occurrence, not overlapping, is at `c`. */
  predicate ClosesAt(t: Text, i: nat, marker: Text, c: int) {
    && i + |marker| <= c && MatchesAt(t, marker, c)
    && forall j :: i + |marker| <= j < c ==> !MatchesAt(t, marker, j)
  }

  /** Not empty, and no whitespace at either end. */
  predicate Edged(t: Text) {
    t != [] && !IsSpace(t[0]) && !IsSpace(t[|t| - 1])
  }

  /** A single underscore is no marker inside a word. */
  predicate OutsideWords(t: Text, i: nat, end: nat, word: CodeUnit -> bool) {
    (0 < i <= |t| ==> !word(t[i - 1])) && (end < |t| ==> !word(t[end]))
  }

  /** The run the text has at `i`. */
  predicate IsRun(t: Text, i: nat, r: Run, word: CodeUnit -> bool) {
    var c := r.end - |r.marker|;
    && Opens(t, i, r.marker, r.style) && ClosesAt(t, i, r.marker, c)
    && r.inner == t[i + |r.marker|..c] && Edged(r.inner)
    && (r.marker == [UNDERSCORE] ==> OutsideWords(t, i, r.end, word))
  }

  lemma {:induction false} TrimIsEdged(t: Text)
    ensures t != [] ==> (Trim(t) == t <==> Edged(t))
  {
    if t != [] {
      var n := RunLength(t, SpaceRun);
      if IsSpace(t[0]) {
        assert n > 0 && |Trim(t)| <= |t[n..]|;
      } else {
        assert n == 0 && t[n..] == t;
      }
    }
  }

  lemma {:induction false} FirstUnit(t: Text, marker: Text, i: nat)
    requires marker != [] && MatchesAt(t, marker, i)
    ensures i < |t| && t[i] == marker[0]
  {
    assert t[i..i + |marker|][0] == t[i];
  }

  /** Where a marker stands in the list. */
  function Place(marker: Text, style: Style): nat {
    match style
    case BOLD => 0
    case STRIKETHROUGH => 1
    case MONOSPACE => 2
    case ITALIC => if marker == [STAR] then 3 else 4
  }

  lemma {:induction false} OpensAsListed(t: Text, i: nat, marker: Text, style: Style)
    requires Opens(t, i, marker, style)
    ensures MARKERS[Place(marker, style)] == (marker, style)
    ensures forall j :: 0 <= j < Place(marker, style) ==> !MatchesAt(t, MARKERS[j].0, i)
  {
    FirstUnit(t, marker, i);
    forall j | 0 <= j < Place(marker, style)
      ensures !MatchesAt(t, MARKERS[j].0, i)
    {
      if MatchesAt(t, MARKERS[j].0, i) { FirstUnit(t, MARKERS[j].0, i); }
    }
  }

  lemma {:induction false} ListedOpens(t: Text, i: nat, k: nat)
    requires k < |MARKERS| && MatchesAt(t, MARKERS[k].0, i)
    requires forall j :: 0 <= j < k ==> !MatchesAt(t, MARKERS[j].0, i)
    ensures Opens(t, i, MARKERS[k].0, MARKERS[k].1)
  {
    assert !MatchesAt(t, MARKERS[0].0, i) || k == 0;
  }

  /** The first marker of the list that matches is the one that opens. */
  lemma {:induction false} FirstMarker(t: Text, i: nat, marker: Text, style: Style, k: nat)
    requires i < |t| && k == MarkerAt(t, i, MARKERS)
    ensures Opens(t, i, marker, style) <==> k < |MARKERS| && MARKERS[k] == (marker, style)
  {
    if Opens(t, i, marker, style) {
      OpensAsListed(t, i, marker, style);
      assert k == Place(marker, style);
    }
    if k < |MARKERS| { ListedOpens(t, i, k); }
  }

  lemma {:induction false} ClosesAtFirst(t: Text, i: nat, marker: Text, c: int, x: int)
    requires c == IndexOf(t, marker, i + |marker|)
    ensures ClosesAt(t, i, marker, x) <==> c != -1 && x == c
  {
    if ClosesAt(t, i, marker, x) { IndexIs(t, marker, i + |marker|, x); }
  }

  /** What stands between the markers makes a run. */
  predicate Holds(t: Text, i: nat, marker: Text, c: int, word: CodeUnit -> bool)
    requires i + |marker| <= c <= |t|
  {
    && Edged(t[i + |marker|..c])
    && (marker == [UNDERSCORE] ==> OutsideWords(t, i, c + |marker|, word))
  }

  /** The tests of the source on a closing marker found at `c`. */
  lemma {:induction false} OpensRunExactly(t: Text, i: nat, marker: Text, c: int, word: CodeUnit -> bool)
    requires i <= |t| && marker != [] && i + |marker| <= c <= |t| - |marker|
    ensures OpensRun(t, i, marker, c, word) <==> Holds(t, i, marker, c, word)
  {
    if i + |marker| < c {
      TrimIsEdged(t[i + |marker|..c]);
    }
  }

  lemma {:induction false} RunWithRead(t: Text, i: nat, marker: Text, style: Style, c: int, word: CodeUnit -> bool)
    requires i < |t| && MatchesAt(t, marker, i) && marker != [] && c == IndexOf(t, marker, i + |marker|)
    ensures RunWith(t, i, marker, style, word)
         == if OpensRun(t, i, marker, c, word) then Found(Run(marker, style, t[i + |marker|..c], c + |marker|))
            else NoRun
  {
  }

  lemma {:induction false} ReadIsRun(
      t: Text, i: nat, marker: Text, style: Style, c: int, f: Found, r: Run, word: CodeUnit -> bool)
    requires Opens(t, i, marker, style) && (c == -1 || i + |marker| <= c <= |t| - |marker|)
    requires f == if c != -1 && Holds(t, i, marker, c, word) then
                    Found(Run(marker, style, t[i + |marker|..c], c + |marker|))
                  else NoRun
    requires ClosesAt(t, i, marker, r.end - |marker|) <==> c != -1 && r.end - |marker| == c
    ensures f == Found(r) <==> r.marker == marker && r.style == style && IsRun(t, i, r, word)
  {
  }

  /** With the marker known: the run it opens, if any. */
  lemma {:induction false} RunWithExactly(t: Text, i: nat, marker: Text, style: Style, r: Run, word: CodeUnit -> bool)
    requires i < |t| && Opens(t, i, marker, style) && marker != []
    ensures RunWith(t, i, marker, style, word) == Found(r) <==>
              r.marker == marker && r.style == style && IsRun(t, i, r, word)
  {
    var c := IndexOf(t, marker, i + |marker|);
    RunWithRead(t, i, marker, style, c, word);
    if c != -1 { OpensRunExactly(t, i, marker, c, word); }
    ClosesAtFirst(t, i, marker, c, r.end - |marker|);
    ReadIsRun(t, i, marker, style, c, RunWith(t, i, marker, style, word), r, word);
  }

  /** The reader finds exactly the runs the text has. */
  lemma {:induction false} RunFoundExactly(t: Text, i: nat, r: Run, word: CodeUnit -> bool)
    requires i < |t|
    ensures RunAt(t, i, word) == Found(r) <==> IsRun(t, i, r, word)
  {
    var k := MarkerAt(t, i, MARKERS);
    FirstMarker(t, i, r.marker, r.style, k);
    if k < |MARKERS| {
      MarkersSound(k);
      FirstMarker(t, i, MARKERS[k].0, MARKERS[k].1, k);
      RunWithExactly(t, i, MARKERS[k].0, MARKERS[k].1, r, word);
    }
  }

  // ---- what was marked is read back ----

  predicate IsMarkUnit(u: CodeUnit) {
    u == STAR || u == UNDERSCORE || u == TILDE || u == TICK
  }

  /** The markers a writer has for each style. */
  predicate Marks(marker: Text, style: Style) {
    match style
    case BOLD => marker == [STAR, STAR]
    case STRIKETHROUGH => marker == [TILDE, TILDE]
    case MONOSPACE => marker == [TICK]
    case ITALIC => marker == [UNDERSCORE] || marker == [STAR]
  }

  predicate Underscored(item: Item) {
    item.Styled? && item.marker == [UNDERSCORE]
  }

  predicate InWord(item: Item, word: CodeUnit -> bool) {
    item.Plain? && word(item.u)
  }

  predicate Apart(a: Item, b: Item, word: CodeUnit -> bool) {
    (Underscored(a) ==> !InWord(b, word)) && (Underscored(b) ==> !InWord(a, word))
  }

  /**
   A document as a writer marks it: plain characters that are no markers, and marked parts, nested as
   one likes save inside the same marker character, with no space next to a marker inside, and no
   underscore inside a word.
   */
  ghost predicate Clean(items: seq<Item>, banned: set<CodeUnit>, word: CodeUnit -> bool)
    decreases items
  {
    && (forall k :: 0 <= k < |items| ==> CleanItem(items[k], banned, word))
    && (forall k :: 0 <= k < |items| - 1 ==> Apart(items[k], items[k + 1], word))
  }

  ghost predicate CleanItem(item: Item, banned: set<CodeUnit>, word: CodeUnit -> bool)
    decreases item
  {
    match item
    case Plain(u) => !IsMarkUnit(u) && u !in banned
    case Code(literal) => TICK !in banned && Edged(literal) && forall u :: u in literal ==> u != TICK && u !in banned
    case Styled(marker, style, body) =>
      && style != MONOSPACE && Marks(marker, style) && marker[0] !in banned
      && Edged(Source(body)) && Clean(body, banned + {marker[0]}, word)
  }

  predicate MarksAreNoWord(word: CodeUnit -> bool) {
    !word(STAR) && !word(UNDERSCORE) && !word(TILDE) && !word(TICK)
  }

  lemma {:induction false} NoneBanned(items: seq<Item>, banned: set<CodeUnit>, word: CodeUnit -> bool)
    requires Clean(items, banned, word)
    ensures forall u :: u in Source(items) ==> u !in banned
    decreases items
  {
    if items != [] {
      NoneBannedInItem(items[0], banned, word);
      NoneBanned(items[1..], banned, word);
    }
  }

  lemma {:induction false} NoneBannedInItem(item: Item, banned: set<CodeUnit>, word: CodeUnit -> bool)
    requires CleanItem(item, banned, word)
    ensures forall u :: u in ItemSource(item) ==> u !in banned
    decreases item
  {
    if item.Styled? {
      NoneBanned(item.body, banned + {item.marker[0]}, word);
    }
  }

  lemma {:induction false} WrappedSlices(t: Text, i: nat, marker: Text, inner: Text, rest: Text)
    requires i <= |t| && t[i..] == marker + inner + marker + rest
    ensures i + |marker| + |inner| + |marker| <= |t|
    ensures var c := i + |marker| + |inner|;
            t[i..i + |marker|] == marker && t[i + |marker|..c] == inner && t[c..c + |marker|] == marker
  {
    var u, c := t[i..], |marker| + |inner|;
    assert t[i..i + |marker|] == u[..|marker|] && t[i + |marker|..i + c] == u[|marker|..c];
    assert t[i + c..i + c + |marker|] == u[c..c + |marker|];
  }

  /** A marker whose character the inner text does not hold closes right behind it. */
  lemma {:induction false} ClosesBehind(t: Text, i: nat, marker: Text, inner: Text)
    requires marker != [] && i + |marker| + |inner| + |marker| <= |t| && marker[0] !in inner
    requires t[i + |marker|..i + |marker| + |inner|] == inner
    requires t[i + |marker| + |inner|..i + |marker| + |inner| + |marker|] == marker
    ensures ClosesAt(t, i, marker, i + |marker| + |inner|)
  {
    var from := i + |marker|;
    forall j | from <= j < from + |inner|
      ensures !MatchesAt(t, marker, j)
    {
      assert t[j] == t[from..from + |inner|][j - from];
      if MatchesAt(t, marker, j) { FirstUnit(t, marker, j); }
    }
  }

  lemma {:induction false} OpensAlone(t: Text, i: nat, marker: Text, style: Style)
    requires MatchesAt(t, marker, i) && Marks(marker, style)
    requires marker == [STAR] ==> i + 1 < |t| && t[i + 1] != STAR
    ensures Opens(t, i, marker, style)
  {
    if MatchesAt(t, [STAR, STAR], i) {
      assert t[i..i + 2][1] == t[i + 1];
    }
  }

  /** A text between two of the same marker, whose character it does not hold, from `i` on. */
  predicate Wrapped(t: Text, i: nat, marker: Text, style: Style, inner: Text, rest: Text) {
    && i < |t| && t[i..] == marker + inner + marker + rest
    && Marks(marker, style) && Edged(inner) && marker[0] !in inner
  }

  lemma {:induction false} WrappedIsRun(
      t: Text, i: nat, marker: Text, style: Style, inner: Text, rest: Text, end: nat, word: CodeUnit -> bool)
    requires Wrapped(t, i, marker, style, inner, rest) && end == i + |marker| + |inner| + |marker|
    requires marker == [UNDERSCORE] ==> OutsideWords(t, i, end, word)
    ensures RunAt(t, i, word) == Found(Run(marker, style, inner, end))
  {
    WrappedMakesRun(t, i, marker, style, inner, rest, end, word);
    RunFoundExactly(t, i, Run(marker, style, inner, end), word);
  }

  lemma {:induction false} WrappedMakesRun(
      t: Text, i: nat, marker: Text, style: Style, inner: Text, rest: Text, end: nat, word: CodeUnit -> bool)
    requires Wrapped(t, i, marker, style, inner, rest) && end == i + |marker| + |inner| + |marker|
    requires marker == [UNDERSCORE] ==> OutsideWords(t, i, end, word)
    ensures IsRun(t, i, Run(marker, style, inner, end), word)
  {
    WrappedOpens(t, i, marker, style, inner, rest);
    WrappedCloses(t, i, marker, style, inner, rest);
  }

  lemma {:induction false} WrappedOpens(t: Text, i: nat, marker: Text, style: Style, inner: Text, rest: Text)
    requires Wrapped(t, i, marker, style, inner, rest)
    ensures Opens(t, i, marker, style)
  {
    var from := i + |marker|;
    WrappedSlices(t, i, marker, inner, rest);
    assert t[from] == t[from..from + |inner|][0] == inner[0];
    OpensAlone(t, i, marker, style);
  }

  lemma {:induction false} WrappedCloses(t: Text, i: nat, marker: Text, style: Style, inner: Text, rest: Text)
    requires Wrapped(t, i, marker, style, inner, rest)
    ensures i + |marker| + |inner| + |marker| <= |t|
    ensures inner == t[i + |marker|..i + |marker| + |inner|]
    ensures ClosesAt(t, i, marker, i + |marker| + |inner|)
  {
    WrappedSlices(t, i, marker, inner, rest);
    ClosesBehind(t, i, marker, inner);
  }

  lemma {:induction false} PlainIsNoRun(t: Text, i: nat, word: CodeUnit -> bool)
    requires i < |t| && !IsMarkUnit(t[i])
    ensures RunAt(t, i, word) == NoRun
  {
    var f := RunAt(t, i, word);
    if f.Found? {
      RunFoundExactly(t, i, f.run, word);
      FirstUnit(t, f.run.marker, i);
    }
  }

  /** The unit after an item is no word unit when an underscore asks for that, and so for the one before. */
  lemma {:induction false} ItemEdges(item: Item, banned: set<CodeUnit>, word: CodeUnit -> bool)
    requires CleanItem(item, banned, word) && MarksAreNoWord(word)
    ensures ItemSource(item) != []
    ensures !InWord(item, word) ==> !word(ItemSource(item)[0]) && !word(ItemSource(item)[|ItemSource(item)| - 1])
  {
  }

  /** A clean document from `i` on, and what may stand before it. */
  ghost predicate Stands(t: Text, i: nat, items: seq<Item>, banned: set<CodeUnit>, word: CodeUnit -> bool) {
    && i <= |t| && t[i..] == Source(items) && Clean(items, banned, word)
    && (items != [] && Underscored(items[0]) && 0 < i ==> !word(t[i - 1]))
  }

  /** What surrounds its first item, and that the others stand behind it. */
  lemma {:induction false} Surrounded(
      t: Text, i: nat, items: seq<Item>, n: nat, banned: set<CodeUnit>, word: CodeUnit -> bool)
    requires Stands(t, i, items, banned, word) && MarksAreNoWord(word) && items != []
    requires n == |ItemSource(items[0])|
    ensures 0 < n && i + n <= |t| && t[i..] == ItemSource(items[0]) + Source(items[1..])
    ensures Underscored(items[0]) ==> OutsideWords(t, i, i + n, word)
    ensures Stands(t, i + n, items[1..], banned, word)
  {
    var src, rest := ItemSource(items[0]), Source(items[1..]);
    ItemEdges(items[0], banned, word);
    assert t[i..] == src + rest;
    assert t[i + n..] == t[i..][n..] == rest;
    assert t[i + n - 1] == t[i..][n - 1] == src[n - 1];
    assert forall k :: 0 <= k < |items| - 1 ==> items[1..][k] == items[k + 1];
    if |items| > 1 {
      assert Apart(items[0], items[0 + 1], word);
      ItemEdges(items[1], banned, word);
      assert rest == ItemSource(items[1]) + Source(items[1..][1..]);
      assert t[i + n] == t[i + n..][0] == ItemSource(items[1])[0];
    }
  }

  lemma {:induction false} RunUnfolds(t: Text, i: nat, r: Run, word: CodeUnit -> bool)
    requires i < |t| && RunAt(t, i, word) == Found(r)
    ensures Parse(t, i, word) == [RunItem(r, word)] + Parse(t, r.end, word)
  {
  }

  lemma {:induction false} PlainUnfolds(t: Text, i: nat, word: CodeUnit -> bool)
    requires i < |t| && RunAt(t, i, word) == NoRun
    ensures Parse(t, i, word) == [Plain(t[i])] + Parse(t, i + 1, word)
  {
  }

  lemma {:induction false} StyledRead(
      t: Text, i: nat, item: Item, rest: Text, end: nat, banned: set<CodeUnit>, word: CodeUnit -> bool)
    requires i < |t| && t[i..] == ItemSource(item) + rest && end == i + |ItemSource(item)| <= |t|
    requires item.Styled? && CleanItem(item, banned, word) && MarksAreNoWord(word)
    requires Underscored(item) ==> OutsideWords(t, i, end, word)
    ensures Parse(t, i, word) == [item] + Parse(t, end, word)
    decreases item, 0
  {
    var inner := Source(item.body);
    NoneBanned(item.body, banned + {item.marker[0]}, word);
    WrappedIsRun(t, i, item.marker, item.style, inner, rest, end, word);
    RunUnfolds(t, i, Run(item.marker, item.style, inner, end), word);
    assert inner[0..] == inner;
    ReadBack(inner, 0, item.body, banned + {item.marker[0]}, word);
  }

  lemma {:induction false} CodeRead(
      t: Text, i: nat, literal: Text, rest: Text, end: nat, banned: set<CodeUnit>, word: CodeUnit -> bool)
    requires i < |t| && t[i..] == [TICK] + literal + [TICK] + rest && end == i + 1 + |literal| + 1 <= |t|
    requires CleanItem(Code(literal), banned, word)
    ensures Parse(t, i, word) == [Code(literal)] + Parse(t, end, word)
  {
    WrappedIsRun(t, i, [TICK], MONOSPACE, literal, rest, end, word);
    RunUnfolds(t, i, Run([TICK], MONOSPACE, literal, end), word);
  }

  lemma {:induction false} PlainRead(t: Text, i: nat, u: CodeUnit, rest: Text, word: CodeUnit -> bool)
    requires i < |t| && t[i..] == [u] + rest && !IsMarkUnit(u)
    ensures Parse(t, i, word) == [Plain(u)] + Parse(t, i + 1, word)
  {
    assert t[i] == t[i..][0] == u;
    PlainIsNoRun(t, i, word);
    PlainUnfolds(t, i, word);
  }

  /** The first item of what stands is read. */
  lemma {:induction false} FirstRead(
      t: Text, i: nat, item: Item, rest: Text, end: nat, banned: set<CodeUnit>, word: CodeUnit -> bool)
    requires i < |t| && t[i..] == ItemSource(item) + rest && end == i + |ItemSource(item)| <= |t|
    requires CleanItem(item, banned, word) && MarksAreNoWord(word)
    requires Underscored(item) ==> OutsideWords(t, i, end, word)
    ensures Parse(t, i, word) == [item] + Parse(t, end, word)
    decreases item, 1
  {
    match item {
      case Plain(u) => PlainRead(t, i, u, rest, word);
      case Code(literal) => CodeRead(t, i, literal, rest, end, banned, word);
      case Styled(_, _, _) => StyledRead(t, i, item, rest, end, banned, word);
    }
  }

  lemma {:induction false} FirstBack(
      t: Text, i: nat, items: seq<Item>, rest: Text, end: nat, banned: set<CodeUnit>, word: CodeUnit -> bool)
    requires Stands(t, i, items, banned, word) && MarksAreNoWord(word) && items != []
    requires end == i + |ItemSource(items[0])| && rest == Source(items[1..])
    ensures i < end <= |t| && t[i..] == ItemSource(items[0]) + rest && CleanItem(items[0], banned, word)
    ensures Underscored(items[0]) ==> OutsideWords(t, i, end, word)
    ensures Stands(t, end, items[1..], banned, word)
  {
    Surrounded(t, i, items, end - i, banned, word);
  }

  lemma {:induction false} ReadBack(t: Text, i: nat, items: seq<Item>, banned: set<CodeUnit>, word: CodeUnit -> bool)
    requires Stands(t, i, items, banned, word) && MarksAreNoWord(word)
    ensures Parse(t, i, word) == items
    decreases items, 2
  {
    if items != [] {
      var rest, end := Source(items[1..]), i + |ItemSource(items[0])|;
      FirstBack(t, i, items, rest, end, banned, word);
      FirstRead(t, i, items[0], rest, end, banned, word);
      ReadBack(t, end, items[1..], banned, word);
      assert items == [items[0]] + items[1..];
    }
  }

  /**
   Every document marked with `**`, `~~`, a backtick, `*` or `_` is read back as it was marked: its
   message is its text without the markers, and its ranges are those of its marked parts.
   */
  lemma {:induction false} MarkedIsReadBack(items: seq<Item>, word: CodeUnit -> bool)
    requires Clean(items, {}, word) && MarksAreNoWord(word)
    ensures Parse(Source(items), 0, word) == items
  {
    assert Source(items)[0..] == Source(items);
    ReadBack(Source(items), 0, items, {}, word);
  }

  function Plains(w: Text): (items: seq<Item>)
    ensures |items| == |w| && forall k :: 0 <= k < |w| ==> items[k] == Plain(w[k])
  {
    seq(|w|, k requires 0 <= k < |w| => Plain(w[k]))
  }

  lemma {:induction false} PlainsAre(w: Text, banned: set<CodeUnit>, word: CodeUnit -> bool)
    requires forall u :: u in w ==> !IsMarkUnit(u) && u !in banned
    ensures Source(Plains(w)) == w && Message(Plains(w)) == w && Ranges(Plains(w), 0) == []
    ensures Clean(Plains(w), banned, word)
  {
    PlainsFrom(w, 0, banned, word);
  }

  lemma {:induction false} PlainsFrom(w: Text, at: nat, banned: set<CodeUnit>, word: CodeUnit -> bool)
    requires forall u :: u in w ==> !IsMarkUnit(u) && u !in banned
    ensures Source(Plains(w)) == w && Message(Plains(w)) == w && Ranges(Plains(w), at) == []
    ensures Clean(Plains(w), banned, word)
  {
    if w != [] {
      assert Plains(w)[1..] == Plains(w[1..]) && w == [w[0]] + w[1..];
      assert w[0] in w && Plains(w)[0] == Plain(w[0]) && CleanItem(Plains(w)[0], banned, word);
      assert |w| > 1 ==> Plains(w)[1] == Plain(w[1]);
      PlainsFrom(w[1..], at + 1, banned, word);
    }
  }

  /** A word between two markers: its style over all of it, and the markers gone. */
  lemma {:induction false} MarkedWord(marker: Text, style: Style, w: Text, word: CodeUnit -> bool)
    requires style != MONOSPACE && Marks(marker, style) && MarksAreNoWord(word)
    requires Edged(w) && forall u :: u in w ==> !IsMarkUnit(u)
    ensures var items := Parse(marker + w + marker, 0, word);
            Message(items) == w && Ranges(items, 0) == [Range(0, |w|, style)]
  {
    var item := Styled(marker, style, Plains(w));
    assert IsMarkUnit(marker[0]);
    PlainsAre(w, {} + {marker[0]}, word);
    assert CleanItem(item, {}, word) && [item][0] == item && [item][1..] == [];
    MarkedIsReadBack([item], word);
    assert Source([item]) == marker + w + marker;
    assert Message([item]) == w + Message([]);
    assert Ranges([item], 0) == [Range(0, |w|, style)] + Ranges(Plains(w), 0) + Ranges([], |w|);
  }
}
