/**
 The SMS numbering settles on the least room for its prefixes, and packs greedily around it
 (packages/gateway-sms/src/split.ts).
 */
module SmsLeast {
  import opened Utf16
  import opened Packing
  import opened Sms
  import Decimals

  // ---- a larger budget never needs more parts ----

  predicate IsSuffix(a: seq<Text>, b: seq<Text>) {
    |a| <= |b| && b[|b| - |a|..] == a
  }

  lemma {:induction false} SuffixWeighsLess(a: seq<Text>, b: seq<Text>, weight: Text -> nat)
    requires IsSuffix(a, b)
    ensures Weigh(a, weight) <= Weigh(b, weight)
  {
    var rest := b[..|b| - |a|];
    assert b == rest + a;
    WeighAppend(rest, a, weight);
  }

  /** Two walks at one segment: the smaller budget has closed `lead` more parts, or its open part is the longer. */
  lemma {:induction false} WalksCompare(
      segs: seq<Text>, cur: seq<Text>, cur': seq<Text>, lead: nat, b: nat, b': nat, weight: Text -> nat)
    requires b <= b' && (cur == [] <==> cur' == [])
    requires lead == 0 ==> IsSuffix(cur', cur)
    ensures |Groups(segs, cur', b', weight)| <= |Groups(segs, cur, b, weight)| + lead
    decreases |segs|
  {
    if segs != [] {
      var s := segs[0];
      if lead == 0 { SuffixWeighsLess(cur', cur, weight); }
      var closes := cur != [] && Weigh(cur, weight) + weight(s) > b;
      var closes' := cur' != [] && Weigh(cur', weight) + weight(s) > b';
      var next := if closes then [s] else cur + [s];
      var next' := if closes' then [s] else cur' + [s];
      var lead' := lead + (if closes then 1 else 0) - (if closes' then 1 else 0);
      if lead' == 0 { NextSuffix(cur, cur', s, closes, closes', lead); }
      WalksCompare(segs[1..], next, next', lead', b, b', weight);
    }
  }

  lemma {:induction false} NextSuffix(
      cur: seq<Text>, cur': seq<Text>, s: Text, closes: bool, closes': bool, lead: nat)
    requires lead == 0 ==> IsSuffix(cur', cur)
    requires lead == 0 && closes' ==> closes
    requires lead + (if closes then 1 else 0) == (if closes' then 1 else 0)
    ensures IsSuffix(if closes' then [s] else cur' + [s], if closes then [s] else cur + [s])
  {
    var next := if closes then [s] else cur + [s];
    assert next[|next| - 1..] == [s];
    if !closes' {
      var all := cur + [s];
      assert all[|all| - |cur'| - 1..] == cur[|cur| - |cur'|..] + [s];
    }
  }

  lemma {:induction false} FewerParts(text: Text, segs: seq<Text>, limit: nat, b: nat, b': nat)
    requires b <= b'
    ensures |Bodies(text, segs, limit, b')| <= |Bodies(text, segs, limit, b)|
  {
    WalksCompare(segs, [], [], 0, b, b', Length);
  }

  lemma {:induction false} WidthMonotone(m: nat, n: nat)
    requires m <= n
    ensures PrefixWidthFor(m) <= PrefixWidthFor(n)
  {
    Decimals.DecimalMonotone(m, n);
  }

  // ---- the width settled on ----

  /** With `w` units kept free the parts number themselves within `w`, or there is only one. */
  predicate Fits(text: Text, segs: seq<Text>, limit: int, w: int) {
    && 0 < w < limit
    && var bodies := Bodies(text, segs, limit, limit - w); |bodies| <= 1 || PrefixWidthFor(|bodies|) <= w
  }

  /** No even width under `w` does. */
  ghost predicate NoneUnder(text: Text, segs: seq<Text>, limit: int, w: int) {
    forall v :: 6 <= v < w && v % 2 == 0 ==> !Fits(text, segs, limit, v)
  }

  /** What the text is split into once `w` units are kept free. */
  function SplitAt(text: Text, segs: seq<Text>, limit: int, w: int): seq<Text>
    requires 0 < w < limit
  {
    var bodies := Bodies(text, segs, limit, limit - w);
    if |bodies| <= 1 then bodies else Numbered(bodies)
  }

  lemma {:induction false} NeededSkipsNone(text: Text, segs: seq<Text>, limit: int, w: int)
    requires 6 <= w < limit && w % 2 == 0 && !Fits(text, segs, limit, w) && NoneUnder(text, segs, limit, w)
    ensures NoneUnder(text, segs, limit, PrefixWidthFor(|Bodies(text, segs, limit, limit - w)|))
  {
    var count := |Bodies(text, segs, limit, limit - w)|;
    forall v | 6 <= v < PrefixWidthFor(count) && v % 2 == 0
      ensures !Fits(text, segs, limit, v)
    {
      if w < v < limit {
        FewerParts(text, segs, limit, limit - v, limit - w);
        WidthMonotone(count, |Bodies(text, segs, limit, limit - v)|);
      }
    }
  }

  /** From any width below which none fits: the least that fits, or the refusal that none does. */
  lemma {:induction false} SettlesAtLeast(text: Text, segs: seq<Text>, limit: int, w: int, passes: nat)
    returns (least: int)
    requires w >= 6 && w % 2 == 0 && NoneUnder(text, segs, limit, w)
    ensures var r := Settle(text, segs, limit, w, passes);
            && (r.Parts? ==> 6 <= least && least % 2 == 0 && Fits(text, segs, limit, least)
                             && NoneUnder(text, segs, limit, least) && r.parts == SplitAt(text, segs, limit, least))
            && (r.Refused? && r.error.LimitTooSmall? ==>
                  NoneUnder(text, segs, limit, limit) && limit <= r.error.reserved)
    decreases passes
  {
    least := w;
    if passes > 0 && w < limit && !Fits(text, segs, limit, w) {
      NeededSkipsNone(text, segs, limit, w);
      least := SettlesAtLeast(
        text, segs, limit, PrefixWidthFor(|Bodies(text, segs, limit, limit - w)|), passes - 1);
    }
  }

  /**
   For a text under 10^8 code units: it is split with the least even number of units kept free that its
   prefixes fit in, and refused if and only if no number of units does.
   */
  lemma {:induction false} LeastReserve(text: Text, segs: seq<Text>, limit: int) returns (least: int)
    requires Segmentation(segs, text) && |text| < 100_000_000
    ensures var r := SmsParts(text, segs, limit);
            && (r.Parts? <==> exists w :: 6 <= w && w % 2 == 0 && Fits(text, segs, limit, w))
            && (r.Parts? ==> 6 <= least && least % 2 == 0 && Fits(text, segs, limit, least)
                             && NoneUnder(text, segs, limit, least) && r.parts == SplitAt(text, segs, limit, least))
  {
    assert PrefixWidthFor(1) == 6;
    PassesSuffice(text, segs, limit, 6, PASSES);
    SettleErrors(text, segs, limit, 6, PASSES);
    least := SettlesAtLeast(text, segs, limit, 6, PASSES);
  }

  lemma {:induction false} SettleErrors(text: Text, segs: seq<Text>, limit: int, reserved: nat, passes: nat)
    ensures var r := Settle(text, segs, limit, reserved, passes);
            r.Refused? ==> r.error.LimitTooSmall? || r.error == WidthNotSettled
    decreases passes
  {
    if passes > 0 && limit > reserved {
      SettleErrors(text, segs, limit, PrefixWidthFor(|Bodies(text, segs, limit, limit - reserved)|), passes - 1);
    }
  }

  /** And the bodies are packed greedily: none could have taken the next grapheme too. */
  lemma {:induction false} BodiesPacked(text: Text, segs: seq<Text>, limit: nat, budget: nat)
    returns (groups: seq<seq<Text>>)
    requires Segmentation(segs, text) && |text| > limit
    ensures Bodies(text, segs, limit, budget) == ConcatEach(groups) && Packed(groups, segs, budget, Length)
  {
    groups := Groups(segs, [], budget, Length);
    GroupsPacked(segs, [], budget, Length);
    assert [] + segs == segs;
  }
}
