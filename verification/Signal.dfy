/**
 Markdown markers to Signal text styles (packages/gateway-signal/src/text-style.ts). `word` is the
 Unicode letter-or-digit test of one code unit; every result holds for any such test.
 */
module Signal {
  import opened Utf16
  import opened Decimals

  datatype Style = BOLD | ITALIC | STRIKETHROUGH | MONOSPACE

  /** One `textStyle` entry. */
  datatype Range = Range(start: nat, length: nat, style: Style) {
    function End(): nat { start + length }
  }

  datatype Run = Run(marker: Text, style: Style, inner: Text, end: nat)
  datatype Found = NoRun | Found(run: Run)

  const STAR: CodeUnit := '*' as int
  const UNDERSCORE: CodeUnit := '_' as int
  const TILDE: CodeUnit := '~' as int
  const TICK: CodeUnit := '`' as int

  /** Longest marker first. */
  const MARKERS: seq<(Text, Style)> := [
    ([STAR, STAR], BOLD),
    ([TILDE, TILDE], STRIKETHROUGH),
    ([TICK], MONOSPACE),
    ([STAR], ITALIC),
    ([UNDERSCORE], ITALIC)
  ]

  /** The first marker of the list that the text has at `i`. */
  function MarkerAt(t: Text, i: nat, markers: seq<(Text, Style)>): (k: nat)
    ensures k <= |markers|
    ensures k < |markers| ==> MatchesAt(t, markers[k].0, i)
    ensures forall j :: 0 <= j < k ==> !MatchesAt(t, markers[j].0, i)
  {
    if markers == [] || MatchesAt(t, markers[0].0, i) then 0 else 1 + MarkerAt(t, i, markers[1..])
  }

  predicate InsideWord(t: Text, before: nat, after: nat, word: CodeUnit -> bool) {
    (0 < before <= |t| && word(t[before - 1])) || (after < |t| && word(t[after]))
  }

  lemma {:induction false} MarkersSound(k: nat)
    requires k < |MARKERS|
    ensures MARKERS[k].0 != [] && (MARKERS[k].1 == MONOSPACE ==> MARKERS[k].0 == [TICK])
  {
  }

  /** What makes a text between two markers a styled run. */
  predicate OpensRun(t: Text, i: nat, marker: Text, close: int, word: CodeUnit -> bool)
    requires i <= |t|
  {
    && i + |marker| < close <= |t|
    && Trim(t[i + |marker|..close]) == t[i + |marker|..close]
    && !(marker == [UNDERSCORE] && InsideWord(t, i, close + 1, word))
  }

  /** The run a marker found at `i` opens, if its closing marker makes one. */
  function RunWith(t: Text, i: nat, marker: Text, style: Style, word: CodeUnit -> bool): (f: Found)
    requires i < |t| && marker != [] && MatchesAt(t, marker, i)
    ensures f.Found? ==> i < f.run.end <= |t| && f.run.inner != [] && |f.run.inner| < |t|
    ensures f.Found? ==> f.run.marker == marker && f.run.style == style
  {
    var open := i + |marker|;
    var close := IndexOf(t, marker, open);
    if !OpensRun(t, i, marker, close, word) then NoRun
    else Found(Run(marker, style, t[open..close], close + |marker|))
  }

  function RunAt(t: Text, i: nat, word: CodeUnit -> bool): (f: Found)
    requires i < |t|
    ensures f.Found? ==> i < f.run.end <= |t| && f.run.inner != [] && |f.run.inner| < |t|
    ensures f.Found? && f.run.style == MONOSPACE ==> f.run.marker == [TICK]
  {
    var k := MarkerAt(t, i, MARKERS);
    if k == |MARKERS| then NoRun
    else
      MarkersSound(k);
      RunWith(t, i, MARKERS[k].0, MARKERS[k].1, word)
  }

  /** A found run is its marker, its inner text and its marker again. */
  lemma {:induction false} RunAtSource(t: Text, i: nat, r: Run, word: CodeUnit -> bool)
    requires i < |t| && RunAt(t, i, word) == Found(r)
    ensures t[i..r.end] == r.marker + r.inner + r.marker
  {
    var k := MarkerAt(t, i, MARKERS);
    MarkersSound(k);
    RunWithSource(t, i, MARKERS[k].0, MARKERS[k].1, r, word);
  }

  lemma {:induction false} RunWithSource(t: Text, i: nat, marker: Text, style: Style, r: Run, word: CodeUnit -> bool)
    requires i < |t| && marker != [] && MatchesAt(t, marker, i)
    requires RunWith(t, i, marker, style, word) == Found(r)
    ensures t[i..r.end] == r.marker + r.inner + r.marker
  {
    var close := IndexOf(t, marker, i + |marker|);
    assert MatchesAt(t, marker, close) && r.marker == marker && r.end == close + |marker|;
    assert r.inner == t[i + |marker|..close];
    ThreeSlices(t, i, i + |marker|, close, r.end);
  }

  lemma {:induction false} ThreeSlices(t: Text, a: nat, b: nat, c: nat, d: nat)
    requires a <= b <= c <= d <= |t|
    ensures t[a..d] == t[a..b] + t[b..c] + t[c..d]
  {
  }

  // ---- the meaning of a marked text: a tree of characters and runs ----

  datatype Item = Plain(u: CodeUnit) | Code(literal: Text) | Styled(marker: Text, style: Style, body: seq<Item>)

  function Parse(t: Text, i: nat, word: CodeUnit -> bool): seq<Item>
    requires i <= |t|
    decreases |t|, 1 + |t| - i
  {
    if i == |t| then []
    else match RunAt(t, i, word)
      case NoRun => [Plain(t[i])] + Parse(t, i + 1, word)
      case Found(r) => [RunItem(r, word)] + Parse(t, r.end, word)
  }

  function RunItem(r: Run, word: CodeUnit -> bool): Item
    decreases |r.inner| + 1, 0
  {
    if r.style == MONOSPACE then Code(r.inner) else Styled(r.marker, r.style, Parse(r.inner, 0, word))
  }

  function FirstItem(t: Text, i: nat, word: CodeUnit -> bool): Item
    requires i < |t|
  {
    match RunAt(t, i, word)
    case NoRun => Plain(t[i])
    case Found(r) => RunItem(r, word)
  }

  function ItemSource(item: Item): Text {
    match item
    case Plain(u) => [u]
    case Code(literal) => [TICK] + literal + [TICK]
    case Styled(marker, _, body) => marker + Source(body) + marker
  }

  /** The text with every marker in place. */
  function Source(items: seq<Item>): Text {
    if items == [] then [] else ItemSource(items[0]) + Source(items[1..])
  }

  function ItemText(item: Item): Text {
    match item
    case Plain(u) => [u]
    case Code(literal) => literal
    case Styled(_, _, body) => Message(body)
  }

  /** The text with the markers of its runs removed. */
  function Message(items: seq<Item>): Text {
    if items == [] then [] else ItemText(items[0]) + Message(items[1..])
  }

  function ItemRanges(item: Item, at: nat): seq<Range> {
    match item
    case Plain(_) => []
    case Code(literal) => [Range(at, |literal|, MONOSPACE)]
    case Styled(_, style, body) => [Range(at, |Message(body)|, style)] + Ranges(body, at)
  }

  /** The runs of the tree in the order they open, placed in the message from `at` on. */
  function Ranges(items: seq<Item>, at: nat): seq<Range> {
    if items == [] then []
    else ItemRanges(items[0], at) + Ranges(items[1..], at + |ItemText(items[0])|)
  }

  // ---- the loop of the source ----

  function Shift(r: Range, offset: nat): Range {
    r.(start := r.start + offset)
  }

  function ShiftAll(rs: seq<Range>, offset: nat): seq<Range> {
    if rs == [] then [] else [Shift(rs[0], offset)] + ShiftAll(rs[1..], offset)
  }

  method ToTextStyle(text: Text, word: CodeUnit -> bool) returns (message: Text, textStyle: seq<Range>)
    ensures message == Message(Parse(text, 0, word))
    ensures textStyle == Ranges(Parse(text, 0, word), 0)
    decreases |text|, 1
  {
    message, textStyle := [], [];
    var i := 0;
    ghost var items := Parse(text, 0, word);
    while i < |text|
      invariant i <= |text|
      invariant message + Message(Parse(text, i, word)) == Message(items)
      invariant textStyle + Ranges(Parse(text, i, word), |message|) == Ranges(items, 0)
      decreases |text| - i
    {
      ghost var rest, written, styled := Parse(text, i, word), message, textStyle;
      ParseStep(text, i, word);
      message, textStyle, i := TakeItem(text, i, message, textStyle, word);
      MessageStep(written, rest, message);
      RangesStep(styled, rest, |written|, textStyle, |message|);
    }
  }

  /** One turn of the loop: a character as it is, or a whole run. */
  method TakeItem(text: Text, i: nat, message: Text, textStyle: seq<Range>, word: CodeUnit -> bool)
    returns (longer: Text, entries: seq<Range>, next: nat)
    requires i < |text|
    ensures next == Next(text, i, word)
    ensures longer == message + ItemText(FirstItem(text, i, word))
    ensures entries == textStyle + ItemRanges(FirstItem(text, i, word), |message|)
    decreases |text|, 0
  {
    var found := RunAt(text, i, word);
    if found == NoRun {
      longer, entries, next := message + [text[i]], textStyle, i + 1;
    } else {
      var inner, added := WriteRun(found.run, |message|, word);
      longer, entries, next := message + inner, textStyle + added, found.run.end;
    }
  }

  /** The styled branch of the loop: what one run adds to the message that is `start` units long. */
  method WriteRun(run: Run, start: nat, word: CodeUnit -> bool) returns (inner: Text, entries: seq<Range>)
    ensures inner == ItemText(RunItem(run, word)) && entries == ItemRanges(RunItem(run, word), start)
    decreases |run.inner| + 1, 0
  {
    if run.style == MONOSPACE {
      inner := run.inner;
      entries := [Range(start, |run.inner|, MONOSPACE)];
    } else {
      var nestedMessage, nestedStyle := ToTextStyle(run.inner, word);
      StyledRun(run, word);
      StyledItem(run.marker, run.style, Parse(run.inner, 0, word), start);
      inner := nestedMessage;
      var shifted := ShiftEntries(nestedStyle, start);
      entries := [Range(start, |nestedMessage|, run.style)] + shifted;
    }
  }

  lemma {:induction false} StyledRun(run: Run, word: CodeUnit -> bool)
    requires run.style != MONOSPACE
    ensures RunItem(run, word) == Styled(run.marker, run.style, Parse(run.inner, 0, word))
  {
  }

  lemma {:induction false} StyledItem(marker: Text, style: Style, body: seq<Item>, start: nat)
    ensures ItemText(Styled(marker, style, body)) == Message(body)
    ensures ItemRanges(Styled(marker, style, body), start)
         == [Range(start, |Message(body)|, style)] + ShiftAll(Ranges(body, 0), start)
  {
    ShiftedRanges(body, 0, start);
  }

  method ShiftEntries(nestedStyle: seq<Range>, start: nat) returns (shifted: seq<Range>)
    ensures shifted == ShiftAll(nestedStyle, start)
  {
    shifted := [];
    for k := 0 to |nestedStyle|
      invariant shifted == ShiftAll(nestedStyle[..k], start)
    {
      assert nestedStyle[..k + 1] == nestedStyle[..k] + [nestedStyle[k]];
      ShiftAppend(nestedStyle[..k], [nestedStyle[k]], start);
      shifted := shifted + [Shift(nestedStyle[k], start)];
    }
    assert nestedStyle[..|nestedStyle|] == nestedStyle;
  }

  /** One item written: the message and the entries so far, and what the rest will add. */
  lemma {:induction false} MessageStep(message: Text, rest: seq<Item>, m: Text)
    requires rest != [] && m == message + ItemText(rest[0])
    ensures m + Message(rest[1..]) == message + Message(rest)
  {
  }

  lemma {:induction false} RangesStep(textStyle: seq<Range>, rest: seq<Item>, at: nat, s: seq<Range>, next: nat)
    requires rest != [] && s == textStyle + ItemRanges(rest[0], at) && next == at + |ItemText(rest[0])|
    ensures s + Ranges(rest[1..], next) == textStyle + Ranges(rest, at)
  {
    RangesUnfold(rest, at, next);
    Regroup(textStyle, ItemRanges(rest[0], at), Ranges(rest[1..], next));
  }

  lemma {:induction false} RangesUnfold(items: seq<Item>, at: nat, next: nat)
    requires items != [] && next == at + |ItemText(items[0])|
    ensures Ranges(items, at) == ItemRanges(items[0], at) + Ranges(items[1..], next)
  {
  }

  lemma {:induction false} Regroup<T>(a: seq<T>, b: seq<T>, c: seq<T>)
    ensures a + (b + c) == (a + b) + c
  {
  }

  function Next(t: Text, i: nat, word: CodeUnit -> bool): (n: nat)
    requires i < |t|
    ensures i < n <= |t|
  {
    match RunAt(t, i, word)
    case NoRun => i + 1
    case Found(r) => r.end
  }

  lemma {:induction false} ParseStep(t: Text, i: nat, word: CodeUnit -> bool)
    requires i < |t|
    ensures Parse(t, i, word) != [] && Parse(t, i, word)[0] == FirstItem(t, i, word)
    ensures Parse(t, i, word)[1..] == Parse(t, Next(t, i, word), word)
  {
  }

  lemma {:induction false} ShiftedRanges(items: seq<Item>, at: nat, offset: nat)
    ensures ShiftAll(Ranges(items, at), offset) == Ranges(items, at + offset)
  {
    if items != [] {
      var rest := Ranges(items[1..], at + |ItemText(items[0])|);
      ShiftAppend(ItemRanges(items[0], at), rest, offset);
      ShiftedRanges(items[1..], at + |ItemText(items[0])|, offset);
      match items[0] {
        case Plain(_) =>
        case Code(_) =>
        case Styled(_, _, body) => ShiftedRanges(body, at, offset);
      }
    }
  }

  lemma {:induction false} ShiftAppend(a: seq<Range>, b: seq<Range>, offset: nat)
    ensures ShiftAll(a + b, offset) == ShiftAll(a, offset) + ShiftAll(b, offset)
  {
    if a == [] {
      assert a + b == b;
    } else {
      assert (a + b)[1..] == a[1..] + b;
      ShiftAppend(a[1..], b, offset);
    }
  }

  // ---- the entries as the source writes them ----

  const COLON: CodeUnit := ':' as int

  function StyleName(s: Style): Text {
    match s
    case BOLD => [66, 79, 76, 68]
    case ITALIC => [73, 84, 65, 76, 73, 67]
    case STRIKETHROUGH => [83, 84, 82, 73, 75, 69, 84, 72, 82, 79, 85, 71, 72]
    case MONOSPACE => [77, 79, 78, 79, 83, 80, 65, 67, 69]
  }

  /** `start:length:STYLE`. */
  function Entry(r: Range): Text {
    JoinWith([Decimal(r.start), Decimal(r.length), StyleName(r.style)], COLON)
  }

  /** `shift`: the first field of an entry read as a number and moved. */
  function ShiftEntry(entry: Text, offset: nat): Text
    requires var fields := SplitOn(entry, COLON); |fields| == 3 && Value(fields[0]) >= 0
  {
    var fields := SplitOn(entry, COLON);
    JoinWith([Decimal(Value(fields[0]) + offset), fields[1], fields[2]], COLON)
  }

  /** Shifting the text of an entry is shifting the range it stands for. */
  lemma {:induction false} ShiftEntryShifts(r: Range, offset: nat)
    ensures var fields := SplitOn(Entry(r), COLON); |fields| == 3 && Value(fields[0]) >= 0
    ensures ShiftEntry(Entry(r), offset) == Entry(Shift(r, offset))
  {
    var fields := [Decimal(r.start), Decimal(r.length), StyleName(r.style)];
    assert COLON !in fields[0] && COLON !in fields[1] && COLON !in fields[2];
    SplitOfJoin(fields, COLON);
    ValueOfDecimal(r.start);
  }

  /** An entry says which range it stands for: start, length and style. */
  lemma {:induction false} EntryDetermines(a: Range, b: Range)
    requires Entry(a) == Entry(b)
    ensures a == b
  {
    var fa := [Decimal(a.start), Decimal(a.length), StyleName(a.style)];
    var fb := [Decimal(b.start), Decimal(b.length), StyleName(b.style)];
    SplitOfJoin(fa, COLON);
    SplitOfJoin(fb, COLON);
    assert fa[0] == fb[0] && fa[1] == fb[1] && fa[2] == fb[2];
    ValueOfDecimal(a.start);
    ValueOfDecimal(b.start);
    ValueOfDecimal(a.length);
    ValueOfDecimal(b.length);
    NamesDiffer(a.style, b.style);
  }

  lemma {:induction false} NamesDiffer(a: Style, b: Style)
    requires StyleName(a) == StyleName(b)
    ensures a == b
  {
    assert StyleName(a)[0] == StyleName(b)[0];
  }

  // ---- meaning is preserved ----

  /** Every text is the tree it parses to, markers in place. */
  lemma {:induction false} ParseKeepsSource(t: Text, i: nat, word: CodeUnit -> bool)
    requires i <= |t|
    ensures Source(Parse(t, i, word)) == t[i..]
    decreases |t|, |t| - i
  {
    if i < |t| {
      var next := Next(t, i, word);
      ParseStep(t, i, word);
      ParseKeepsSource(t, next, word);
      match RunAt(t, i, word) {
        case NoRun =>
        case Found(r) => ParseKeepsSource(r.inner, 0, word);
      }
      FirstItemSource(t, i, word, RunAt(t, i, word));
      SourceStep(Parse(t, i, word), t, i, next);
    }
  }

  lemma {:induction false} SourceStep(items: seq<Item>, t: Text, i: nat, next: nat)
    requires i <= next <= |t| && items != []
    requires ItemSource(items[0]) == t[i..next] && Source(items[1..]) == t[next..]
    ensures Source(items) == t[i..]
  {
    assert t[i..] == t[i..next] + t[next..];
  }

  lemma {:induction false} FirstItemSource(t: Text, i: nat, word: CodeUnit -> bool, f: Found)
    requires i < |t| && f == RunAt(t, i, word)
    requires f.Found? ==> Source(Parse(f.run.inner, 0, word)) == f.run.inner[0..]
    ensures ItemSource(FirstItem(t, i, word)) == t[i..Next(t, i, word)]
  {
    match f {
      case NoRun => assert t[i..i + 1] == [t[i]];
      case Found(r) =>
        RunAtSource(t, i, r, word);
        RunItemSource(r, word);
    }
  }

  lemma {:induction false} RunItemSource(r: Run, word: CodeUnit -> bool)
    requires r.style == MONOSPACE ==> r.marker == [TICK]
    requires Source(Parse(r.inner, 0, word)) == r.inner[0..]
    ensures ItemSource(RunItem(r, word)) == r.marker + r.inner + r.marker
  {
    assert r.inner[0..] == r.inner;
  }

  /** No run is empty, at any depth. */
  ghost predicate Solid(items: seq<Item>) {
    items == [] ||
    (&& Solid(items[1..])
     && match items[0]
        case Plain(_) => true
        case Code(literal) => literal != []
        case Styled(_, _, body) => body != [] && Solid(body))
  }

  lemma {:induction false} ParseSolid(t: Text, i: nat, word: CodeUnit -> bool)
    requires i <= |t|
    ensures Solid(Parse(t, i, word)) && (i < |t| ==> Parse(t, i, word) != [])
    decreases |t|, |t| - i
  {
    if i < |t| {
      ParseStep(t, i, word);
      match RunAt(t, i, word) {
        case NoRun =>
          ParseSolid(t, i + 1, word);
        case Found(r) =>
          ParseSolid(t, r.end, word);
          ParseSolid(r.inner, 0, word);
      }
    }
  }

  lemma {:induction false} SolidText(items: seq<Item>)
    requires Solid(items) && items != []
    ensures Message(items) != []
  {
    match items[0] {
      case Plain(_) =>
      case Code(_) =>
      case Styled(_, _, body) => SolidText(body);
    }
  }

  // ---- the ranges ----

  /** Two entries in the order they open: the later starts no earlier, and is inside or past. */
  predicate NestedOrPast(a: Range, b: Range) {
    && a.start <= b.start
    && (b.End() <= a.End() || a.End() <= b.start)
    && (a.style == MONOSPACE ==> a.End() <= b.start)
  }

  ghost predicate Laminar(rs: seq<Range>, from: nat, to: nat) {
    && (forall k :: 0 <= k < |rs| ==> 0 < rs[k].length && from <= rs[k].start && rs[k].End() <= to)
    && (forall j, k :: 0 <= j < k < |rs| ==> NestedOrPast(rs[j], rs[k]))
  }

  lemma {:induction false} LaminarAppend(a: seq<Range>, b: seq<Range>, from: nat, mid: nat, to: nat)
    requires from <= mid <= to && Laminar(a, from, mid) && Laminar(b, mid, to)
    ensures Laminar(a + b, from, to)
  {
  }

  lemma {:induction false} LaminarWrap(outer: Range, inner: seq<Range>)
    requires 0 < outer.length && outer.style != MONOSPACE && Laminar(inner, outer.start, outer.End())
    ensures Laminar([outer] + inner, outer.start, outer.End())
  {
  }

  lemma {:induction false} RangesLaminar(items: seq<Item>, at: nat)
    requires Solid(items)
    requires StylesKnown(items)
    ensures Laminar(Ranges(items, at), at, at + |Message(items)|)
  {
    if items != [] {
      var mid := at + |ItemText(items[0])|;
      RangesLaminar(items[1..], mid);
      match items[0] {
        case Plain(_) =>
        case Code(_) =>
        case Styled(_, style, body) =>
          SolidText(body);
          RangesLaminar(body, at);
          LaminarWrap(Range(at, |Message(body)|, style), Ranges(body, at));
      }
      LaminarAppend(ItemRanges(items[0], at), Ranges(items[1..], mid), at, mid, at + |Message(items)|);
    }
  }

  /** Only code spans are monospace. */
  ghost predicate StylesKnown(items: seq<Item>) {
    items == [] ||
    (StylesKnown(items[1..]) && (items[0].Styled? ==> items[0].style != MONOSPACE && StylesKnown(items[0].body)))
  }

  lemma {:induction false} ParseStyles(t: Text, i: nat, word: CodeUnit -> bool)
    requires i <= |t|
    ensures StylesKnown(Parse(t, i, word))
    decreases |t|, |t| - i
  {
    if i < |t| {
      ParseStep(t, i, word);
      match RunAt(t, i, word) {
        case NoRun =>
          ParseStyles(t, i + 1, word);
        case Found(r) =>
          ParseStyles(t, r.end, word);
          ParseStyles(r.inner, 0, word);
      }
    }
  }

  // ---- how a reader sees the message ----

  /** The styles of each character of the tree: those of the runs around it. */
  function Looks(items: seq<Item>, outer: set<Style>): (r: seq<set<Style>>)
    ensures |r| == |Message(items)|
  {
    if items == [] then [] else ItemLooks(items[0], outer) + Looks(items[1..], outer)
  }

  function ItemLooks(item: Item, outer: set<Style>): (r: seq<set<Style>>)
    ensures |r| == |ItemText(item)|
  {
    match item
    case Plain(_) => [outer]
    case Code(literal) => seq(|literal|, _ => outer + {MONOSPACE})
    case Styled(_, style, body) => Looks(body, outer + {style})
  }

  /** The styles of position `j` of a message sent with these entries. */
  function PaintAt(rs: seq<Range>, j: nat): set<Style> {
    if rs == [] then {}
    else (if rs[0].start <= j < rs[0].End() then {rs[0].style} else {}) + PaintAt(rs[1..], j)
  }

  lemma {:induction false} PaintAppend(a: seq<Range>, b: seq<Range>, j: nat)
    ensures PaintAt(a + b, j) == PaintAt(a, j) + PaintAt(b, j)
  {
    if a == [] {
      assert a + b == b;
    } else {
      assert (a + b)[1..] == a[1..] + b;
      PaintAppend(a[1..], b, j);
    }
  }

  lemma {:induction false} PaintLeft(a: seq<Range>, b: seq<Range>, rs: seq<Range>, j: nat)
    requires rs == a + b && PaintAt(b, j) == {}
    ensures PaintAt(rs, j) == PaintAt(a, j)
  {
    PaintAppend(a, b, j);
  }

  lemma {:induction false} PaintRight(a: seq<Range>, b: seq<Range>, rs: seq<Range>, j: nat)
    requires rs == a + b && PaintAt(a, j) == {}
    ensures PaintAt(rs, j) == PaintAt(b, j)
  {
    PaintAppend(a, b, j);
  }

  lemma {:induction false} PaintOutside(items: seq<Item>, at: nat, j: nat)
    requires j < at || at + |Message(items)| <= j
    ensures PaintAt(Ranges(items, at), j) == {}
  {
    if items != [] {
      var mid := at + |ItemText(items[0])|;
      PaintAppend(ItemRanges(items[0], at), Ranges(items[1..], mid), j);
      PaintOutside(items[1..], mid, j);
      ItemPaintOutside(items[0], at, j);
    }
  }

  lemma {:induction false} ItemPaintOutside(item: Item, at: nat, j: nat)
    requires j < at || at + |ItemText(item)| <= j
    ensures PaintAt(ItemRanges(item, at), j) == {}
  {
    match item {
      case Plain(_) =>
      case Code(_) =>
      case Styled(_, style, body) =>
        PaintOutside(body, at, j);
        PaintAppend([Range(at, |Message(body)|, style)], Ranges(body, at), j);
    }
  }

  lemma {:induction false} Painted(items: seq<Item>, at: nat, outer: set<Style>, k: nat)
    requires k < |Message(items)|
    ensures Looks(items, outer)[k] == outer + PaintAt(Ranges(items, at), at + k)
    decreases items
  {
    var n := |ItemText(items[0])|;
    if k < n {
      ItemPainted(items[0], at, outer, k);
      LooksHead(items, outer, k);
      HeadPaint(items, at, k, n);
    } else {
      Painted(items[1..], at + n, outer, k - n);
      PaintedTail(items, at, outer, k, n);
    }
  }

  lemma {:induction false} LooksHead(items: seq<Item>, outer: set<Style>, k: nat)
    requires items != [] && k < |ItemText(items[0])|
    ensures Looks(items, outer)[k] == ItemLooks(items[0], outer)[k]
  {
    var head, tail := ItemLooks(items[0], outer), Looks(items[1..], outer);
    assert Looks(items, outer) == head + tail;
  }

  lemma {:induction false} HeadPaint(items: seq<Item>, at: nat, k: nat, n: nat)
    requires items != [] && n == |ItemText(items[0])| && k < n
    ensures PaintAt(Ranges(items, at), at + k) == PaintAt(ItemRanges(items[0], at), at + k)
  {
    PaintOutside(items[1..], at + n, at + k);
    PaintedBefore(items, at, k, n, Ranges(items[1..], at + n));
  }

  lemma {:induction false} PaintedBefore(items: seq<Item>, at: nat, k: nat, n: nat, rest: seq<Range>)
    requires items != [] && n == |ItemText(items[0])| && k < n
    requires rest == Ranges(items[1..], at + n) && PaintAt(rest, at + k) == {}
    ensures PaintAt(Ranges(items, at), at + k) == PaintAt(ItemRanges(items[0], at), at + k)
  {
    RangesUnfold(items, at, at + n);
    PaintLeft(ItemRanges(items[0], at), rest, Ranges(items, at), at + k);
  }

  lemma {:induction false} PaintedTail(items: seq<Item>, at: nat, outer: set<Style>, k: nat, n: nat)
    requires items != [] && n == |ItemText(items[0])| && n <= k < |Message(items)|
    requires Looks(items[1..], outer)[k - n] == outer + PaintAt(Ranges(items[1..], at + n), at + k)
    ensures Looks(items, outer)[k] == outer + PaintAt(Ranges(items, at), at + k)
  {
    var head, tail := ItemLooks(items[0], outer), Looks(items[1..], outer);
    assert Looks(items, outer) == head + tail && (head + tail)[k] == tail[k - n];
    PaintedAfter(items, at, k, n);
  }

  lemma {:induction false} PaintedAfter(items: seq<Item>, at: nat, k: nat, n: nat)
    requires items != [] && n == |ItemText(items[0])| && n <= k
    ensures PaintAt(Ranges(items, at), at + k) == PaintAt(Ranges(items[1..], at + n), at + k)
  {
    ItemPaintOutside(items[0], at, at + k);
    RangesUnfold(items, at, at + n);
    PaintRight(ItemRanges(items[0], at), Ranges(items[1..], at + n), Ranges(items, at), at + k);
  }

  lemma {:induction false} ItemPainted(item: Item, at: nat, outer: set<Style>, k: nat)
    requires k < |ItemText(item)|
    ensures ItemLooks(item, outer)[k] == outer + PaintAt(ItemRanges(item, at), at + k)
    decreases item
  {
    match item {
      case Plain(_) =>
      case Code(_) =>
      case Styled(_, style, body) =>
        PaintAppend([Range(at, |Message(body)|, style)], Ranges(body, at), at + k);
        Painted(body, at, outer + {style}, k);
    }
  }

  lemma {:induction false} PaintedFromStart(items: seq<Item>, k: nat)
    requires k < |Message(items)|
    ensures Looks(items, {})[k] == PaintAt(Ranges(items, 0), k)
  {
    Painted(items, 0, {}, k);
  }

  /** Every character of the message shows exactly the styles of the runs it stood in. */
  lemma {:induction false} MessageLooksAsMarked(t: Text, word: CodeUnit -> bool)
    ensures var items := Parse(t, 0, word);
            forall k :: 0 <= k < |Message(items)| ==> Looks(items, {})[k] == PaintAt(Ranges(items, 0), k)
  {
    AllPainted(Parse(t, 0, word));
  }

  lemma {:induction false} AllPainted(items: seq<Item>)
    ensures forall k :: 0 <= k < |Message(items)| ==> Looks(items, {})[k] == PaintAt(Ranges(items, 0), k)
  {
    forall k | 0 <= k < |Message(items)|
      ensures Looks(items, {})[k] == PaintAt(Ranges(items, 0), k)
    {
      PaintedFromStart(items, k);
    }
  }

  /**
   The whole promise for every text: its tree flattens back to it, and the entries sent with the
   message are non-empty, in bounds, ordered by start, nested or disjoint, none inside a code span.
   */
  lemma {:induction false} StylingPreservesMeaning(t: Text, word: CodeUnit -> bool)
    ensures var items := Parse(t, 0, word);
            && Source(items) == t
            && Laminar(Ranges(items, 0), 0, |Message(items)|)
  {
    ParseKeepsSource(t, 0, word);
    ParseSolid(t, 0, word);
    ParseStyles(t, 0, word);
    RangesLaminar(Parse(t, 0, word), 0);
    assert t[0..] == t;
  }
}
