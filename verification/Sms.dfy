/**
 Greedy packing of indivisible segments under a budget: the walk of `chunkByGrapheme`
 (packages/gateway/src/text/chunk.ts) over graphemes and of `cutLine`
 (packages/gateway-irc/src/split.ts) over code points.
 */
module Packing {
  import opened Utf16

  function Flatten(groups: seq<seq<Text>>): seq<Text> {
    if groups == [] then [] else groups[0] + Flatten(groups[1..])
  }

  function ConcatEach(groups: seq<seq<Text>>): (parts: seq<Text>)
    ensures |parts| == |groups|
    ensures forall i :: 0 <= i < |groups| ==> parts[i] == Concat(groups[i])
  {
    seq(|groups|, i requires 0 <= i < |groups| => Concat(groups[i]))
  }

  function Length(t: Text): nat { |t| }

  function Weigh(group: seq<Text>, weight: Text -> nat): nat {
    if group == [] then 0 else weight(group[0]) + Weigh(group[1..], weight)
  }

  lemma {:induction false} WeighAppend(a: seq<Text>, b: seq<Text>, weight: Text -> nat)
    ensures Weigh(a + b, weight) == Weigh(a, weight) + Weigh(b, weight)
  {
    if a == [] {
      assert a + b == b;
    } else {
      assert (a + b)[1..] == a[1..] + b;
      WeighAppend(a[1..], b, weight);
    }
  }

  /** The groups still to come when `cur` is open and `segs` are unread. */
  function Groups(segs: seq<Text>, cur: seq<Text>, budget: nat, weight: Text -> nat): seq<seq<Text>> {
    if segs == [] then (if cur == [] then [] else [cur])
    else if cur != [] && Weigh(cur, weight) + weight(segs[0]) > budget then
      [cur] + Groups(segs[1..], [segs[0]], budget, weight)
    else Groups(segs[1..], cur + [segs[0]], budget, weight)
  }

  /** One turn of the packing loop. */
  lemma {:induction false} GroupsTurn(
      done: seq<seq<Text>>, segs: seq<Text>, i: nat, cur: seq<Text>, budget: nat, weight: Text -> nat)
    requires i < |segs|
    ensures done + Groups(segs[i..], cur, budget, weight)
         == if cur != [] && Weigh(cur, weight) + weight(segs[i]) > budget
            then (done + [cur]) + Groups(segs[i + 1..], [segs[i]], budget, weight)
            else done + Groups(segs[i + 1..], cur + [segs[i]], budget, weight)
  {
  }

  lemma {:induction false} GrowGroup(cur: seq<Text>, segment: Text, weight: Text -> nat)
    ensures Concat(cur + [segment]) == Concat(cur) + segment
    ensures Weigh(cur + [segment], weight) == Weigh(cur, weight) + weight(segment)
  {
    ConcatAppend(cur, [segment]);
    WeighAppend(cur, [segment], weight);
    assert Concat([segment]) == segment + Concat([]);
  }

  lemma {:induction false} ConcatEachAppend(done: seq<seq<Text>>, cur: seq<Text>)
    ensures ConcatEach(done + [cur]) == ConcatEach(done) + [Concat(cur)]
  {
  }

  /** A packing loop after `i` segments: the parts done, the one being filled and its weight. */
  datatype Walk = Walk(parts: seq<Text>, buf: Text, size: nat)

  /** The groups behind the loop's variables: those done, the open one, and the rest as packing goes on. */
  ghost predicate Walked(
      segs: seq<Text>, budget: nat, weight: Text -> nat, i: nat, w: Walk, done: seq<seq<Text>>, cur: seq<Text>)
  {
    && i <= |segs| && done + Groups(segs[i..], cur, budget, weight) == Groups(segs, [], budget, weight)
    && w.parts == ConcatEach(done) && w.buf == Concat(cur)
    && (w.buf == [] <==> cur == []) && w.size == Weigh(cur, weight)
  }

  lemma {:induction false} WalkBegins(segs: seq<Text>, budget: nat, weight: Text -> nat)
    ensures Walked(segs, budget, weight, 0, Walk([], [], 0), [], [])
  {
    assert segs[0..] == segs;
    assert [] + Groups(segs, [], budget, weight) == Groups(segs, [], budget, weight);
  }

  /** The segment joins the open part, which has room or is empty. */
  lemma {:induction false} WalkGrows(
      segs: seq<Text>, budget: nat, weight: Text -> nat, i: nat, w: Walk, done: seq<seq<Text>>, cur: seq<Text>)
    requires Walked(segs, budget, weight, i, w, done, cur) && i < |segs| && segs[i] != []
    requires w.buf == [] || w.size + weight(segs[i]) <= budget
    ensures Walked(segs, budget, weight, i + 1, Walk(w.parts, w.buf + segs[i], w.size + weight(segs[i])),
                   done, cur + [segs[i]])
  {
    GroupsTurn(done, segs, i, cur, budget, weight);
    GrowGroup(cur, segs[i], weight);
  }

  /** The segment does not fit: the open part is closed and a new one begins with it. */
  lemma {:induction false} WalkCuts(
      segs: seq<Text>, budget: nat, weight: Text -> nat, i: nat, w: Walk, done: seq<seq<Text>>, cur: seq<Text>)
    requires Walked(segs, budget, weight, i, w, done, cur) && i < |segs| && segs[i] != []
    requires w.buf != [] && w.size + weight(segs[i]) > budget
    ensures Walked(segs, budget, weight, i + 1, Walk(w.parts + [w.buf], segs[i], weight(segs[i])),
                   done + [cur], [segs[i]])
  {
    GroupsTurn(done, segs, i, cur, budget, weight);
    ConcatEachAppend(done, cur);
    GrowGroup([], segs[i], weight);
    assert [] + [segs[i]] == [segs[i]];
  }

  lemma {:induction false} WalkEnds(
      segs: seq<Text>, budget: nat, weight: Text -> nat, w: Walk, done: seq<seq<Text>>, cur: seq<Text>)
    requires Walked(segs, budget, weight, |segs|, w, done, cur)
    ensures ConcatEach(Groups(segs, [], budget, weight)) == if w.buf == [] then w.parts else w.parts + [w.buf]
  {
    ConcatEachAppend(done, cur);
    assert segs[|segs|..] == [];
    if w.buf == [] { assert done + [] == done; }
  }

  predicate FitsOrSingle(group: seq<Text>, budget: nat, weight: Text -> nat) {
    group != [] && (|group| == 1 || Weigh(group, weight) <= budget)
  }

  /** What greedy packing means: the segments in order, no group empty or over budget unless it is
      one segment, and no group with room left for the segment that opens the next. */
  ghost predicate Packed(groups: seq<seq<Text>>, segs: seq<Text>, budget: nat, weight: Text -> nat) {
    && Flatten(groups) == segs
    && (forall g :: g in groups ==> FitsOrSingle(g, budget, weight))
    && (forall i :: 0 <= i < |groups| - 1 && groups[i + 1] != [] ==>
          Weigh(groups[i], weight) + weight(groups[i + 1][0]) > budget)
  }

  /** A closed part goes before packed ones when the segment that opens them did not fit it. */
  lemma {:induction false} PackedBefore(
      cur: seq<Text>, rest: seq<seq<Text>>, segs: seq<Text>, budget: nat, weight: Text -> nat)
    requires FitsOrSingle(cur, budget, weight) && Packed(rest, segs, budget, weight)
    requires rest != [] && rest[0] != [] && Weigh(cur, weight) + weight(rest[0][0]) > budget
    ensures Packed([cur] + rest, cur + segs, budget, weight)
  {
    var gs := [cur] + rest;
    assert gs[1..] == rest;
    assert forall i :: 0 < i < |gs| - 1 ==> gs[i] == rest[i - 1] && gs[i + 1] == rest[i];
  }

  lemma {:induction false} GroupsPacked(segs: seq<Text>, cur: seq<Text>, budget: nat, weight: Text -> nat)
    requires cur == [] || FitsOrSingle(cur, budget, weight)
    ensures Packed(Groups(segs, cur, budget, weight), cur + segs, budget, weight)
    ensures cur != [] ==> var gs := Groups(segs, cur, budget, weight); |gs| > 0 && gs[0] != [] && gs[0][0] == cur[0]
  {
    if segs == [] {
      assert cur != [] ==> Flatten([cur]) == cur + Flatten([]);
    } else if cur != [] && Weigh(cur, weight) + weight(segs[0]) > budget {
      var rest := Groups(segs[1..], [segs[0]], budget, weight);
      GroupsPacked(segs[1..], [segs[0]], budget, weight);
      assert [segs[0]] + segs[1..] == segs;
      PackedBefore(cur, rest, segs, budget, weight);
    } else {
      WeighAppend(cur, [segs[0]], weight);
      assert cur + segs == cur + [segs[0]] + segs[1..];
      assert cur == [] ==> |cur + [segs[0]]| == 1;
      GroupsPacked(segs[1..], cur + [segs[0]], budget, weight);
    }
  }

  lemma {:induction false} ConcatFlatten(groups: seq<seq<Text>>)
    ensures Concat(ConcatEach(groups)) == Concat(Flatten(groups))
  {
    if groups != [] {
      assert ConcatEach(groups)[1..] == ConcatEach(groups[1..]);
      ConcatAppend(groups[0], Flatten(groups[1..]));
      ConcatFlatten(groups[1..]);
    }
  }

  lemma {:induction false} CountGroups(segs: seq<Text>, cur: seq<Text>, budget: nat, weight: Text -> nat)
    ensures |Groups(segs, cur, budget, weight)| <= |segs| + (if cur == [] then 0 else 1)
  {
    if segs != [] {
      if cur != [] && Weigh(cur, weight) + weight(segs[0]) > budget {
        CountGroups(segs[1..], [segs[0]], budget, weight);
      } else {
        CountGroups(segs[1..], cur + [segs[0]], budget, weight);
      }
    }
  }

  ghost predicate NonEmptySegments(segs: seq<Text>) {
    forall i :: 0 <= i < |segs| ==> segs[i] != []
  }

  lemma {:induction false} CountSegments(segs: seq<Text>)
    requires NonEmptySegments(segs)
    ensures |segs| <= |Concat(segs)|
  {
    if segs != [] {
      assert segs[0] != [];
      CountSegments(segs[1..]);
    }
  }

  lemma {:induction false} WeighLengths(group: seq<Text>)
    ensures Weigh(group, Length) == |Concat(group)|
  {
    if group != [] {
      WeighLengths(group[1..]);
    }
  }
}

/** Decimal numerals, as `String(n)` writes them. */
module Decimals {
  import opened Utf16

  const ZERO: CodeUnit := 48

  function Decimal(n: nat): (t: Text)
    ensures |t| > 0
    ensures forall i :: 0 <= i < |t| ==> ZERO <= t[i] < ZERO + 10
  {
    if n < 10 then [ZERO + n] else Decimal(n / 10) + [ZERO + n % 10]
  }

  /** `Number(t)` on a numeral. */
  function Value(t: Text): int {
    if t == [] then 0 else 10 * Value(t[..|t| - 1]) + (t[|t| - 1] - ZERO)
  }

  lemma {:induction false} ValueOfDecimal(n: nat)
    ensures Value(Decimal(n)) == n
  {
    if n < 10 {
      assert [ZERO + n][..0] == [];
    } else {
      ValueOfDecimal(n / 10);
      assert Decimal(n)[..|Decimal(n)| - 1] == Decimal(n / 10);
    }
  }

  lemma {:induction false} DecimalMonotone(m: nat, n: nat)
    requires m <= n
    ensures |Decimal(m)| <= |Decimal(n)|
    decreases n
  {
    if m >= 10 {
      DecimalMonotone(m / 10, n / 10);
    }
  }

  function Pow10(k: nat): nat {
    if k == 0 then 1 else 10 * Pow10(k - 1)
  }

  lemma {:induction false} DecimalWidth(n: nat, k: nat)
    requires 0 < k && n < Pow10(k)
    ensures |Decimal(n)| <= k
  {
    if n >= 10 {
      assert k > 1;
      DecimalWidth(n / 10, k - 1);
    }
  }
}

/**
 `chunkByGrapheme` (packages/gateway/src/text/chunk.ts) and the numbered SMS parts
 (packages/gateway-sms/src/split.ts). The grapheme segmentation of a text is any partition of it
 into non-empty segments.
 */
module Sms {
  import opened Utf16
  import opened Packing
  import opened Decimals

  datatype Error = NotPositive | LimitTooSmall(reserved: nat) | WidthNotSettled
  datatype Result = Parts(parts: seq<Text>) | Refused(error: Error)

  const PASSES: nat := 8

  ghost predicate Segmentation(segs: seq<Text>, text: Text) {
    Concat(segs) == text && NonEmptySegments(segs)
  }

  function PrefixWidthFor(total: nat): (w: nat)
    ensures w >= 6 && w % 2 == 0
  {
    2 * |Decimal(total)| + 4
  }

  /** `(i/total) `. */
  function Prefix(i: nat, total: nat): Text {
    ['(' as int] + Decimal(i) + ['/' as int] + Decimal(total) + [')' as int, ' ' as int]
  }

  function Numbered(bodies: seq<Text>): (parts: seq<Text>)
    ensures |parts| == |bodies|
    ensures forall i :: 0 <= i < |bodies| ==> parts[i] == Prefix(i + 1, |bodies|) + bodies[i]
  {
    seq(|bodies|, i requires 0 <= i < |bodies| => Prefix(i + 1, |bodies|) + bodies[i])
  }

  function Bodies(text: Text, segs: seq<Text>, limit: nat, partLimit: nat): seq<Text> {
    if |text| <= limit then [text]
    else ConcatEach(Groups(segs, [], partLimit, Length))
  }

  function Settle(text: Text, segs: seq<Text>, limit: int, reserved: nat, passes: nat): Result
    decreases passes
  {
    if passes == 0 then Refused(WidthNotSettled)
    else if limit - reserved <= 0 then Refused(LimitTooSmall(reserved))
    else
      var bodies := Bodies(text, segs, limit, limit - reserved);
      if |bodies| <= 1 then Parts(bodies)
      else if PrefixWidthFor(|bodies|) <= reserved then Parts(Numbered(bodies))
      else Settle(text, segs, limit, PrefixWidthFor(|bodies|), passes - 1)
  }

  function SmsParts(text: Text, segs: seq<Text>, limit: int): Result {
    Settle(text, segs, limit, PrefixWidthFor(1), PASSES)
  }

  // ---- the loops of the source ----

  method ChunkByGrapheme(text: Text, segs: seq<Text>, limit: int, partLimit: int) returns (r: Result)
    requires Segmentation(segs, text)
    ensures r == if limit <= 0 || partLimit <= 0 then Refused(NotPositive)
                 else Parts(Bodies(text, segs, limit, partLimit))
  {
    if limit <= 0 || partLimit <= 0 { return Refused(NotPositive); }
    if |text| == 0 { return Parts([[]]); }
    if |text| <= limit { return Parts([text]); }
    ghost var done: seq<seq<Text>>, cur: seq<Text> := [], [];
    var parts: seq<Text> := [];
    var buf: Text := [];
    WalkBegins(segs, partLimit, Length);
    for i := 0 to |segs|
      invariant Walked(segs, partLimit, Length, i, Walk(parts, buf, |buf|), done, cur)
    {
      var segment := segs[i];
      assert segment != [];
      if |buf| + |segment| > partLimit && |buf| > 0 {
        WalkCuts(segs, partLimit, Length, i, Walk(parts, buf, |buf|), done, cur);
        done, cur := done + [cur], [segment];
      } else {
        WalkGrows(segs, partLimit, Length, i, Walk(parts, buf, |buf|), done, cur);
        cur := cur + [segment];
      }
      if |buf| + |segment| > partLimit {
        if |buf| > 0 { parts := parts + [buf]; }
        buf := [];
      }
      buf := buf + segment;
    }
    WalkEnds(segs, partLimit, Length, Walk(parts, buf, |buf|), done, cur);
    if |buf| > 0 { parts := parts + [buf]; }
    r := Parts(parts);
  }

  /** One pass: done, or on with the width this count needs. */
  lemma {:induction false} SettleTurn(
      text: Text, segs: seq<Text>, limit: int, reserved: nat, passes: nat, bodies: seq<Text>)
    requires passes > 0 && limit > reserved && bodies == Bodies(text, segs, limit, limit - reserved)
    ensures Settle(text, segs, limit, reserved, passes)
            == if |bodies| <= 1 then Parts(bodies)
               else if PrefixWidthFor(|bodies|) <= reserved then Parts(Numbered(bodies))
               else Settle(text, segs, limit, PrefixWidthFor(|bodies|), passes - 1)
  {
  }

  method SplitForSms(text: Text, segs: seq<Text>, limit: int := 1600) returns (r: Result)
    requires Segmentation(segs, text)
    ensures r == SmsParts(text, segs, limit)
  {
    var reserved := PrefixWidthFor(1);
    for pass := 0 to PASSES
      invariant Settle(text, segs, limit, reserved, PASSES - pass) == SmsParts(text, segs, limit)
    {
      var partLimit := limit - reserved;
      if partLimit <= 0 { return Refused(LimitTooSmall(reserved)); }
      var chunks := ChunkByGrapheme(text, segs, limit, partLimit);
      var parts := chunks.parts;
      SettleTurn(text, segs, limit, reserved, PASSES - pass, parts);
      if |parts| <= 1 { return Parts(parts); }
      var needed := PrefixWidthFor(|parts|);
      if needed <= reserved { return Parts(Numbered(parts)); }
      reserved := needed;
    }
    r := Refused(WidthNotSettled);
  }

  // ---- what the numbering promises ----

  predicate WithinOrGrapheme(b: Text, segs: seq<Text>, budget: int) {
    b != [] && (|b| <= budget || b in segs)
  }

  lemma {:induction false} GroupBody(g: seq<Text>, groups: seq<seq<Text>>, segs: seq<Text>, budget: nat)
    requires g in groups && Packed(groups, segs, budget, Length) && NonEmptySegments(segs)
    ensures WithinOrGrapheme(Concat(g), segs, budget)
  {
    assert FitsOrSingle(g, budget, Length) && g[0] in g;
    GroupMember(groups, g, g[0]);
    var k :| 0 <= k < |segs| && segs[k] == g[0];
    assert segs[k] != [] && Concat(g) == g[0] + Concat(g[1..]);
    if |g| == 1 {
      assert Concat(g) == g[0] && g[0] == segs[k];
    } else {
      WeighLengths(g);
    }
  }

  lemma {:induction false} BodiesCount(text: Text, segs: seq<Text>, limit: nat, budget: nat)
    requires Segmentation(segs, text)
    ensures |Bodies(text, segs, limit, budget)| <= |text| || |Bodies(text, segs, limit, budget)| <= 1
  {
    CountGroups(segs, [], budget, Length);
    CountSegments(segs);
  }

  lemma {:induction false} BodiesSound(text: Text, segs: seq<Text>, limit: nat, budget: nat)
    requires Segmentation(segs, text)
    ensures Concat(Bodies(text, segs, limit, budget)) == text
    ensures |text| > limit ==>
              forall b :: b in Bodies(text, segs, limit, budget) ==> WithinOrGrapheme(b, segs, budget)
  {
    if |text| > limit {
      var groups := Groups(segs, [], budget, Length);
      GroupsPacked(segs, [], budget, Length);
      assert [] + segs == segs;
      ConcatFlatten(groups);
      forall b | b in ConcatEach(groups) ensures WithinOrGrapheme(b, segs, budget) {
        var i :| 0 <= i < |groups| && b == ConcatEach(groups)[i];
        GroupBody(groups[i], groups, segs, budget);
      }
    } else {
      assert Concat([text]) == text + Concat([]);
    }
  }

  lemma {:induction false} GroupMember(groups: seq<seq<Text>>, g: seq<Text>, s: Text)
    requires g in groups && s in g
    ensures s in Flatten(groups)
  {
    if groups[0] != g {
      GroupMember(groups[1..], g, s);
    }
  }

  /** The width kept free is that of the widest prefix, the last one. */
  lemma {:induction false} PrefixFits(i: nat, total: nat)
    requires i <= total
    ensures |Prefix(i, total)| <= PrefixWidthFor(total) == |Prefix(total, total)|
  {
    DecimalMonotone(i, total);
  }

  ghost predicate AllWithin(parts: seq<Text>, limit: int) {
    forall i :: 0 <= i < |parts| ==> |parts[i]| <= limit
  }

  /** Parts as the recipient needs them: "(i/N) " before each body, N the number of parts, the
      bodies being the text, each within the budget the prefix leaves or one whole grapheme. */
  ghost predicate SoundParts(
      parts: seq<Text>, bodies: seq<Text>, budget: int, text: Text, segs: seq<Text>, limit: int)
  {
    && Concat(bodies) == text
    && (|bodies| <= 1 ==> parts == bodies)
    && (|bodies| > 1 ==>
          && parts == Numbered(bodies)
          && 0 < budget <= limit - PrefixWidthFor(|bodies|)
          && forall b :: b in bodies ==> WithinOrGrapheme(b, segs, budget))
  }

  lemma {:induction false} SettledParts(text: Text, segs: seq<Text>, limit: int, reserved: nat, passes: nat)
    returns (bodies: seq<Text>, budget: int)
    requires Segmentation(segs, text)
    requires Settle(text, segs, limit, reserved, passes).Parts?
    ensures SoundParts(Settle(text, segs, limit, reserved, passes).parts, bodies, budget, text, segs, limit)
    decreases passes
  {
    budget := limit - reserved;
    bodies := Bodies(text, segs, limit, budget);
    BodiesSound(text, segs, limit, budget);
    if |bodies| > 1 && PrefixWidthFor(|bodies|) > reserved {
      bodies, budget := SettledParts(text, segs, limit, PrefixWidthFor(|bodies|), passes - 1);
    }
  }

  /** Sound numbered parts stay within the limit when every grapheme fits the part budget. */
  lemma {:induction false} SoundPartsFit(
      parts: seq<Text>, bodies: seq<Text>, budget: int, text: Text, segs: seq<Text>, limit: int)
    requires SoundParts(parts, bodies, budget, text, segs, limit) && |parts| > 1
    requires AllWithin(segs, budget)
    ensures AllWithin(parts, limit)
  {
    forall i | 0 <= i < |parts| ensures |parts[i]| <= limit {
      assert parts[i] == Prefix(i + 1, |bodies|) + bodies[i];
      PrefixFits(i + 1, |bodies|);
      assert bodies[i] in bodies && WithinOrGrapheme(bodies[i], segs, budget);
    }
  }

  /**
   Numbering at its fixed point: whenever several parts come back they are sound, and within the
   limit if every grapheme fits the part budget.
   */
  lemma {:induction false} NumberedParts(text: Text, segs: seq<Text>, limit: int)
    returns (bodies: seq<Text>, budget: int)
    requires Segmentation(segs, text) && SmsParts(text, segs, limit).Parts?
    ensures SoundParts(SmsParts(text, segs, limit).parts, bodies, budget, text, segs, limit)
    ensures |bodies| > 1 && AllWithin(segs, budget) ==> AllWithin(SmsParts(text, segs, limit).parts, limit)
  {
    bodies, budget := SettledParts(text, segs, limit, PrefixWidthFor(1), PASSES);
    if |bodies| > 1 && AllWithin(segs, budget) {
      SoundPartsFit(SmsParts(text, segs, limit).parts, bodies, budget, text, segs, limit);
    }
  }

  lemma {:induction false} ShortTextWidth(text: Text, segs: seq<Text>, limit: nat, partLimit: nat)
    requires Segmentation(segs, text) && |text| < 100_000_000
    requires |Bodies(text, segs, limit, partLimit)| > 1
    ensures PrefixWidthFor(|Bodies(text, segs, limit, partLimit)|) <= 20
  {
    BodiesCount(text, segs, limit, partLimit);
    assert Pow10(8) == 100_000_000;
    DecimalWidth(|Bodies(text, segs, limit, partLimit)|, 8);
  }

  /** The eight passes always settle: a text under 10^8 code units never meets the last throw. */
  lemma {:induction false} PassesSuffice(text: Text, segs: seq<Text>, limit: int, reserved: nat, passes: nat)
    requires Segmentation(segs, text) && |text| < 100_000_000
    requires 0 < passes && reserved % 2 == 0 && reserved >= 22 - 2 * passes
    ensures Settle(text, segs, limit, reserved, passes) != Refused(WidthNotSettled)
    decreases passes
  {
    if limit > reserved {
      var bodies := Bodies(text, segs, limit, limit - reserved);
      if |bodies| > 1 {
        ShortTextWidth(text, segs, limit, limit - reserved);
        if PrefixWidthFor(|bodies|) > reserved {
          PassesSuffice(text, segs, limit, PrefixWidthFor(|bodies|), passes - 1);
        }
      }
    }
  }

  /** Short texts never reserve more than 20, so the budget they settle on is at least limit - 20. */
  lemma {:induction false} ShortTextSettles(text: Text, segs: seq<Text>, limit: int, reserved: nat, passes: nat)
    returns (bodies: seq<Text>, budget: int)
    requires Segmentation(segs, text) && |text| < 100_000_000
    requires 0 < passes && reserved % 2 == 0 && 22 - 2 * passes <= reserved <= 20 < limit
    ensures Settle(text, segs, limit, reserved, passes).Parts?
    ensures SoundParts(Settle(text, segs, limit, reserved, passes).parts, bodies, budget, text, segs, limit)
    ensures budget >= limit - 20
    decreases passes
  {
    budget := limit - reserved;
    bodies := Bodies(text, segs, limit, budget);
    BodiesSound(text, segs, limit, budget);
    SettleTurn(text, segs, limit, reserved, passes, bodies);
    if |bodies| > 1 {
      ShortTextWidth(text, segs, limit, budget);
      if PrefixWidthFor(|bodies|) > reserved {
        bodies, budget := ShortTextSettles(text, segs, limit, PrefixWidthFor(|bodies|), passes - 1);
      }
    }
  }

  /**
   The whole promise for a text under 10^8 code units and a limit over the widest prefix: numbering
   succeeds, and numbered parts are within the limit when every grapheme leaves that prefix room.
   */
  lemma {:induction false} SmsAlwaysSplits(text: Text, segs: seq<Text>, limit: int)
    requires Segmentation(segs, text) && |text| < 100_000_000 && limit > 20
    ensures SmsParts(text, segs, limit).Parts?
    ensures AllWithin(segs, limit - 20) && |SmsParts(text, segs, limit).parts| > 1
            ==> AllWithin(SmsParts(text, segs, limit).parts, limit)
  {
    assert PrefixWidthFor(1) == 6;
    var bodies, budget := ShortTextSettles(text, segs, limit, 6, PASSES);
    var parts := SmsParts(text, segs, limit).parts;
    if AllWithin(segs, limit - 20) && |parts| > 1 {
      assert forall i :: 0 <= i < |segs| ==> |segs[i]| <= limit - 20 <= budget;
      SoundPartsFit(parts, bodies, budget, text, segs, limit);
    }
  }
}
