/**
 One IRC line read per RFC 1459 with IRCv3 message tags (packages/gateway-irc/src/line.ts), and a
 printer written from section 2.3.1 of RFC 1459 and the IRCv3 tag escapes, which it inverts.
 */
module IrcLine {
  import opened Utf16
  import opened Options

  datatype Line = Line(tags: map<Text, Text>, prefix: Option<Text>, command: Text, params: seq<Text>)

  const AT: CodeUnit := '@' as int
  const COLON: CodeUnit := ':' as int
  const SEMICOLON: CodeUnit := ';' as int
  const EQUALS: CodeUnit := '=' as int
  const BACKSLASH: CodeUnit := '\\' as int

  /** `__proto__`: assigning it to a plain object with a string value stores nothing. */
  const PROTO: Text := [95, 95, 112, 114, 111, 116, 111, 95, 95]

  // ---- specification of the parser ----

  function UpperUnit(u: CodeUnit): CodeUnit {
    if 'a' as int <= u <= 'z' as int then u - 32 else u
  }

  function Upper(t: Text): (r: Text)
    ensures |r| == |t|
    ensures forall i :: 0 <= i < |t| ==> r[i] == UpperUnit(t[i])
  {
    seq(|t|, i requires 0 <= i < |t| => UpperUnit(t[i]))
  }

  /** What `.` does not match. */
  predicate IsLineTerminator(u: CodeUnit) {
    u == LF || u == CR || u == 0x2028 || u == 0x2029
  }

  function Unescaped(u: CodeUnit): CodeUnit {
    if u == COLON then SEMICOLON
    else if u == 's' as int then SPACE
    else if u == 'r' as int then CR
    else if u == 'n' as int then LF
    else u
  }

  function UnescapeTag(v: Text): Text {
    if v == [] then []
    else if v[0] != BACKSLASH then [v[0]] + UnescapeTag(v[1..])
    else if |v| == 1 || IsLineTerminator(v[1]) then UnescapeTag(v[1..])
    else [Unescaped(v[1])] + UnescapeTag(v[2..])
  }

  function WithTag(tags: map<Text, Text>, pair: Text): map<Text, Text> {
    if pair == [] then tags
    else
      var equals := IndexOf(pair, [EQUALS], 0);
      var key := if equals == -1 then pair else pair[..equals];
      if key == PROTO then tags
      else tags[key := if equals == -1 then [] else UnescapeTag(pair[equals + 1..])]
  }

  function WithTags(tags: map<Text, Text>, pairs: seq<Text>): map<Text, Text>
    decreases |pairs|
  {
    if pairs == [] then tags else WithTags(WithTag(tags, pairs[0]), pairs[1..])
  }

  function TagsOf(t: Text): map<Text, Text> {
    WithTags(map[], SplitOn(t, SEMICOLON))
  }

  function Params(rest: Text): seq<Text> {
    if rest == [] then []
    else if rest[0] == COLON then [rest[1..]]
    else
      var end := IndexOf(rest, [SPACE], 0);
      if end == -1 then [rest]
      else (if end > 0 then [rest[..end]] else []) + Params(rest[end + 1..])
  }

  function CommandAndParams(t: Text): (Text, seq<Text>) {
    var end := IndexOf(t, [SPACE], 0);
    if end == -1 then (Upper(t), []) else (Upper(t[..end]), Params(t[end + 1..]))
  }

  function Parsed(tags: map<Text, Text>, prefix: Option<Text>, rest: Text): Option<Line> {
    var (command, params) := CommandAndParams(rest);
    if command == [] then None else Some(Line(tags, prefix, command, params))
  }

  function Prefixed(tags: map<Text, Text>, rest: Text, end: int): Option<Line>
    requires 1 <= end < |rest|
  {
    Parsed(tags, Some(rest[1..end]), TrimStart(rest[end + 1..]))
  }

  function AfterTags(tags: map<Text, Text>, rest: Text): Option<Line> {
    if rest == [] || rest[0] != COLON then Parsed(tags, None, rest)
    else
      var end := IndexOf(rest, [SPACE], 0);
      if end == -1 then None else Prefixed(tags, rest, end)
  }

  function Tagged(raw: Text, end: int): Option<Line>
    requires 1 <= end < |raw|
  {
    AfterTags(TagsOf(raw[1..end]), TrimStart(raw[end + 1..]))
  }

  function Parse(raw: Text): Option<Line> {
    if raw == [] || raw[0] != AT then AfterTags(map[], raw)
    else
      var end := IndexOf(raw, [SPACE], 0);
      if end == -1 then None else Tagged(raw, end)
  }

  // ---- the loops of the source ----

  method ParseTags(text: Text) returns (tags: map<Text, Text>)
    ensures tags == TagsOf(text)
  {
    tags := map[];
    var pairs := SplitOn(text, SEMICOLON);
    for i := 0 to |pairs|
      invariant WithTags(tags, pairs[i..]) == TagsOf(text)
    {
      var pair := pairs[i];
      assert pairs[i..][0] == pair && pairs[i..][1..] == pairs[i + 1..];
      if pair == [] { continue; }
      var equals := IndexOf(pair, [EQUALS], 0);
      var key := if equals == -1 then pair else pair[..equals];
      if key != PROTO {
        tags := tags[key := if equals == -1 then [] else UnescapeTag(pair[equals + 1..])];
      }
    }
  }

  method SplitCommand(text: Text) returns (command: Text, params: seq<Text>)
    ensures (command, params) == CommandAndParams(text)
  {
    params := [];
    var commandEnd := IndexOf(text, [SPACE], 0);
    command := Upper(if commandEnd == -1 then text else text[..commandEnd]);
    var rest := if commandEnd == -1 then [] else text[commandEnd + 1..];
    ghost var all := Params(rest);
    while rest != []
      invariant params + Params(rest) == all
      decreases |rest|
    {
      if rest[0] == COLON {
        ParamsLast(rest);
        params := params + [rest[1..]];
        break;
      }
      var end := IndexOf(rest, [SPACE], 0);
      if end == -1 {
        ParamsLast(rest);
        params := params + [rest];
        break;
      }
      ParamsStep(params, rest, end);
      if end > 0 { params := params + [rest[..end]]; }
      rest := rest[end + 1..];
    }
    assert params + [] == params;
  }

  lemma {:induction false} ParamsLast(rest: Text)
    requires rest != [] && (rest[0] == COLON || IndexOf(rest, [SPACE], 0) == -1)
    ensures Params(rest) == [if rest[0] == COLON then rest[1..] else rest]
  {
  }

  lemma {:induction false} ParamsStep(params: seq<Text>, rest: Text, end: int)
    requires rest != [] && rest[0] != COLON && end == IndexOf(rest, [SPACE], 0) && end != -1
    ensures params + Params(rest)
         == (if end > 0 then params + [rest[..end]] else params) + Params(rest[end + 1..])
  {
  }

  /** A space found in a line that does not begin with one has something before it. */
  lemma {:induction false} SpaceInside(t: Text, end: int)
    requires t != [] && t[0] != SPACE && end == IndexOf(t, [SPACE], 0) && end != -1
    ensures 1 <= end < |t|
  {
    MatchesUnit(t, SPACE, end);
  }

  lemma {:induction false} TagsFirst(raw: Text, end: int)
    requires raw != [] && raw[0] == AT && end == IndexOf(raw, [SPACE], 0) && 1 <= end < |raw|
    ensures Parse(raw) == Tagged(raw, end)
  {
  }

  lemma {:induction false} PrefixRead(tags: map<Text, Text>, rest: Text, end: int)
    requires rest != [] && rest[0] == COLON && end == IndexOf(rest, [SPACE], 0) && 1 <= end < |rest|
    ensures AfterTags(tags, rest) == Prefixed(tags, rest, end)
  {
  }

  lemma {:induction false} ParsePrefixed(tags: map<Text, Text>, rest: Text, end: int)
    requires rest != [] && rest[0] == COLON && end == IndexOf(rest, [SPACE], 0) && 1 <= end < |rest|
    ensures AfterTags(tags, rest) == Parsed(tags, Some(rest[1..end]), TrimStart(rest[end + 1..]))
  {
    PrefixRead(tags, rest, end);
  }

  method ParseIrcLine(raw: Text) returns (line: Option<Line>)
    ensures line == Parse(raw)
  {
    var rest := raw;
    var tags: map<Text, Text> := map[];
    if rest != [] && rest[0] == AT {
      var end := IndexOf(rest, [SPACE], 0);
      if end == -1 { return None; }
      SpaceInside(raw, end);
      TagsFirst(raw, end);
      tags := ParseTags(rest[1..end]);
      rest := TrimStart(rest[end + 1..]);
    }
    ghost var tagged := AfterTags(tags, rest);
    assert Parse(raw) == tagged;
    var prefix: Option<Text> := None;
    if rest != [] && rest[0] == COLON {
      var end := IndexOf(rest, [SPACE], 0);
      if end == -1 { return None; }
      SpaceInside(rest, end);
      ParsePrefixed(tags, rest, end);
      prefix := Some(rest[1..end]);
      rest := TrimStart(rest[end + 1..]);
    }
    var command, params := SplitCommand(rest);
    if command == [] { return None; }
    line := Some(Line(tags, prefix, command, params));
  }

  // ---- the printer ----

  datatype Tag = Tag(key: Text, value: Text)

  datatype Message = Message(
    tags: seq<Tag>,
    prefix: Option<Text>,
    command: Text,
    middles: seq<Text>,
    trailing: Option<Text>
  )

  predicate Middle(m: Text) {
    m != [] && SPACE !in m && m[0] != COLON
  }

  predicate Key(k: Text) {
    k != [] && SPACE !in k && SEMICOLON !in k && EQUALS !in k && k != PROTO
  }

  predicate SmallLetter(u: CodeUnit) {
    'a' as int <= u <= 'z' as int
  }

  predicate Letters(t: Text) {
    forall i :: 0 <= i < |t| ==> 'A' as int <= t[i] <= 'Z' as int || SmallLetter(t[i])
  }

  predicate Digits(t: Text) {
    forall i :: 0 <= i < |t| ==> '0' as int <= t[i] <= '9' as int
  }

  /** A command in any case, or a three-digit numeric. */
  predicate Command(t: Text) {
    t != [] && (Letters(t) || (|t| == 3 && Digits(t)))
  }

  /** `c` is `t` with every small letter made its capital, 32 below. */
  ghost predicate Capitals(c: Text, t: Text) {
    |c| == |t| && forall i :: 0 <= i < |t| ==> if SmallLetter(t[i]) then c[i] == t[i] - 32 else c[i] == t[i]
  }

  ghost predicate Printable(m: Message) {
    && (forall i :: 0 <= i < |m.tags| ==> Key(m.tags[i].key))
    && (forall i, j :: 0 <= i < j < |m.tags| ==> m.tags[i].key != m.tags[j].key)
    && (m.prefix.Some? ==> m.prefix.value != [] && SPACE !in m.prefix.value)
    && Command(m.command)
    && (forall i :: 0 <= i < |m.middles| ==> Middle(m.middles[i]))
  }

  function EscapeUnit(u: CodeUnit): Text {
    if u == SEMICOLON then [BACKSLASH, COLON]
    else if u == SPACE then [BACKSLASH, 's' as int]
    else if u == BACKSLASH then [BACKSLASH, BACKSLASH]
    else if u == CR then [BACKSLASH, 'r' as int]
    else if u == LF then [BACKSLASH, 'n' as int]
    else [u]
  }

  function EscapeTag(v: Text): Text {
    if v == [] then [] else EscapeUnit(v[0]) + EscapeTag(v[1..])
  }

  function PrintTag(t: Tag): Text {
    if t.value == [] then t.key else t.key + [EQUALS] + EscapeTag(t.value)
  }

  function PrintTags(tags: seq<Tag>): (pairs: seq<Text>)
    ensures |pairs| == |tags| && forall i :: 0 <= i < |tags| ==> pairs[i] == PrintTag(tags[i])
  {
    seq(|tags|, i requires 0 <= i < |tags| => PrintTag(tags[i]))
  }

  /** The parameters as written: the trailing one behind its colon. */
  function Words(m: Message): seq<Text> {
    m.middles + (if m.trailing.Some? then [[COLON] + m.trailing.value] else [])
  }

  function PrintCommand(m: Message): Text {
    m.command + (if Words(m) == [] then [] else [SPACE] + JoinWith(Words(m), SPACE))
  }

  function PrintPrefixed(m: Message): Text {
    (if m.prefix.Some? then [COLON] + m.prefix.value + [SPACE] else []) + PrintCommand(m)
  }

  function Print(m: Message): Text {
    (if m.tags == [] then [] else [AT] + JoinWith(PrintTags(m.tags), SEMICOLON) + [SPACE]) + PrintPrefixed(m)
  }

  function ParamsOf(m: Message): seq<Text> {
    m.middles + (if m.trailing.Some? then [m.trailing.value] else [])
  }

  // ---- the parser inverts the printer ----

  lemma {:induction false} UnescapeEscaped(v: Text)
    ensures UnescapeTag(EscapeTag(v)) == v
    ensures SPACE !in EscapeTag(v) && SEMICOLON !in EscapeTag(v)
  {
    if v != [] {
      UnescapeEscaped(v[1..]);
      UnitRead(v[0], EscapeTag(v[1..]));
      assert v == [v[0]] + v[1..];
    }
  }

  lemma {:induction false} UnitRead(u: CodeUnit, tail: Text)
    ensures UnescapeTag(EscapeUnit(u) + tail) == [u] + UnescapeTag(tail)
  {
  }

  lemma {:induction false} TagRead(tags: map<Text, Text>, t: Tag)
    requires Key(t.key)
    ensures WithTag(tags, PrintTag(t)) == tags[t.key := t.value]
    ensures SPACE !in PrintTag(t) && SEMICOLON !in PrintTag(t)
  {
    var pair := PrintTag(t);
    if t.value == [] {
      IndexNone(t.key, EQUALS);
    } else {
      UnescapeEscaped(t.value);
      IndexAfter(t.key, EQUALS, EscapeTag(t.value));
      assert pair[..|t.key|] == t.key && pair[|t.key| + 1..] == EscapeTag(t.value);
    }
  }

  function Assign(tags: map<Text, Text>, list: seq<Tag>): map<Text, Text>
    decreases |list|
  {
    if list == [] then tags else Assign(tags[list[0].key := list[0].value], list[1..])
  }

  lemma {:induction false} TagsRead(tags: map<Text, Text>, list: seq<Tag>)
    requires forall i :: 0 <= i < |list| ==> Key(list[i].key)
    ensures WithTags(tags, PrintTags(list)) == Assign(tags, list)
    decreases |list|
  {
    if list != [] {
      TagRead(tags, list[0]);
      assert PrintTags(list)[1..] == PrintTags(list[1..]);
      TagsRead(tags[list[0].key := list[0].value], list[1..]);
    }
  }

  lemma {:induction false} AssignDistinct(tags: map<Text, Text>, list: seq<Tag>)
    requires forall i, j :: 0 <= i < j < |list| ==> list[i].key != list[j].key
    ensures Assign(tags, list).Keys == tags.Keys + set i | 0 <= i < |list| :: list[i].key
    ensures forall i :: 0 <= i < |list| ==> Assign(tags, list)[list[i].key] == list[i].value
    ensures forall k :: k in tags && (forall i :: 0 <= i < |list| ==> list[i].key != k)
              ==> Assign(tags, list)[k] == tags[k]
    decreases |list|
  {
    if list != [] {
      var tags' := tags[list[0].key := list[0].value];
      AssignDistinct(tags', list[1..]);
      assert forall i :: 0 <= i < |list| - 1 ==> list[1..][i] == list[i + 1];
      assert list[0].key !in (set i | 0 <= i < |list| - 1 :: list[1..][i].key);
      forall i | 0 <= i < |list|
        ensures Assign(tags, list)[list[i].key] == list[i].value
      {
        if i > 0 { assert list[1..][i - 1] == list[i]; }
      }
    }
  }

  lemma {:induction false} TrimStartNothing(t: Text)
    requires t == [] || !IsSpace(t[0])
    ensures TrimStart(t) == t
  {
  }

  lemma {:induction false} LastWordRead(word: Text)
    requires Middle(word)
    ensures Params(word) == [word]
  {
    IndexNone(word, SPACE);
  }

  lemma {:induction false} WordRead(word: Text, rest: Text)
    requires Middle(word)
    ensures Params(word + [SPACE] + rest) == [word] + Params(rest)
  {
    IndexAfter(word, SPACE, rest);
    var t := word + [SPACE] + rest;
    assert t[0] == word[0] && t[..|word|] == word && t[|word| + 1..] == rest;
  }

  /** Middles are read one by one; a trailing parameter keeps every space and colon it holds. */
  lemma {:induction false} ParamsRead(middles: seq<Text>, trailing: Option<Text>)
    requires forall i :: 0 <= i < |middles| ==> Middle(middles[i])
    requires middles != [] || trailing.Some?
    ensures var m := Message([], None, [], middles, trailing);
            Params(JoinWith(Words(m), SPACE)) == ParamsOf(m)
    decreases |middles|
  {
    var m := Message([], None, [], middles, trailing);
    if middles == [] {
      assert Words(m) == [[COLON] + trailing.value];
    } else if |Words(m)| == 1 {
      assert Middle(middles[0]) && Words(m) == [middles[0]];
      LastWordRead(middles[0]);
    } else {
      var n := Message([], None, [], middles[1..], trailing);
      assert Middle(middles[0]) && Words(m) == [middles[0]] + Words(n) && ParamsOf(m) == [middles[0]] + ParamsOf(n);
      ParamsRead(middles[1..], trailing);
      WordRead(middles[0], JoinWith(Words(n), SPACE));
      JoinFirst(Words(m));
    }
  }

  lemma {:induction false} JoinFirst(words: seq<Text>)
    requires |words| > 1
    ensures JoinWith(words, SPACE) == words[0] + [SPACE] + JoinWith(words[1..], SPACE)
  {
  }

  lemma {:induction false} CommandUnits(t: Text)
    requires Command(t)
    ensures SPACE !in t && Capitals(Upper(t), t) && !IsSpace(t[0]) && t[0] != AT && t[0] != COLON
  {
  }

  lemma {:induction false} CommandRead(m: Message, tags: map<Text, Text>, prefix: Option<Text>)
    requires Command(m.command) && forall i :: 0 <= i < |m.middles| ==> Middle(m.middles[i])
    ensures Parsed(tags, prefix, PrintCommand(m)) == Some(Line(tags, prefix, Upper(m.command), ParamsOf(m)))
  {
    CommandUnits(m.command);
    if Words(m) == [] {
      assert PrintCommand(m) == m.command;
      IndexNone(m.command, SPACE);
    } else {
      var rest := JoinWith(Words(m), SPACE);
      IndexAfter(m.command, SPACE, rest);
      var t := m.command + [SPACE] + rest;
      assert PrintCommand(m) == t && t[..|m.command|] == m.command && t[|m.command| + 1..] == rest;
      ParamsRead(m.middles, m.trailing);
      assert Words(m) == Words(Message([], None, [], m.middles, m.trailing));
    }
  }

  lemma {:induction false} PrefixedRead(m: Message, tags: map<Text, Text>)
    requires Printable(m)
    ensures AfterTags(tags, PrintPrefixed(m)) == Some(Line(tags, m.prefix, Upper(m.command), ParamsOf(m)))
    ensures var t := PrintPrefixed(m); t != [] && !IsSpace(t[0]) && t[0] != AT
  {
    CommandUnits(m.command);
    CommandRead(m, tags, m.prefix);
    var tail := PrintCommand(m);
    if m.prefix.Some? {
      BlockRead(COLON, m.prefix.value, tail);
      TrimStartNothing(tail);
    } else {
      assert PrintPrefixed(m) == tail;
    }
  }

  /** A block between its sign and the space that ends it. */
  lemma {:induction false} BlockRead(sign: CodeUnit, block: Text, tail: Text)
    requires sign != SPACE && SPACE !in block
    ensures var t := [sign] + block + [SPACE] + tail;
            var end := IndexOf(t, [SPACE], 0);
            end == |block| + 1 && t[1..end] == block && t[end + 1..] == tail
  {
    IndexAfter([sign] + block, SPACE, tail);
  }

  lemma {:induction false} NoneInJoin(parts: seq<Text>, sep: CodeUnit, u: CodeUnit)
    requires |parts| > 0 && u != sep && forall i :: 0 <= i < |parts| ==> u !in parts[i]
    ensures u !in JoinWith(parts, sep)
  {
    if |parts| > 1 {
      NoneInJoin(parts[1..], sep, u);
    }
  }

  lemma {:induction false} TagsBlock(tags: seq<Tag>)
    requires tags != [] && forall i :: 0 <= i < |tags| ==> Key(tags[i].key)
    ensures var block := JoinWith(PrintTags(tags), SEMICOLON);
            SPACE !in block && TagsOf(block) == Assign(map[], tags)
  {
    var pairs := PrintTags(tags);
    forall i | 0 <= i < |pairs| ensures SPACE !in pairs[i] && SEMICOLON !in pairs[i] {
      TagRead(map[], tags[i]);
    }
    NoneInJoin(pairs, SEMICOLON, SPACE);
    SplitOfJoin(pairs, SEMICOLON);
    TagsRead(map[], tags);
  }

  /** The tags a reader must end up with: the printed keys, each with its value. */
  ghost predicate SameTags(m: map<Text, Text>, tags: seq<Tag>) {
    && m.Keys == (set i | 0 <= i < |tags| :: tags[i].key)
    && forall i :: 0 <= i < |tags| ==> m[tags[i].key] == tags[i].value
  }

  lemma {:induction false} TaggedRead(m: Message)
    requires Printable(m) && m.tags != []
    ensures Parse(Print(m)) == Some(Line(Assign(map[], m.tags), m.prefix, Upper(m.command), ParamsOf(m)))
  {
    var block, tail := JoinWith(PrintTags(m.tags), SEMICOLON), PrintPrefixed(m);
    TagsBlock(m.tags);
    PrefixedRead(m, Assign(map[], m.tags));
    BlockRead(AT, block, tail);
    TrimStartNothing(tail);
    assert Print(m) == [AT] + block + [SPACE] + tail;
  }

  lemma {:induction false} UntaggedRead(m: Message)
    requires Printable(m) && m.tags == []
    ensures Parse(Print(m)) == Some(Line(map[], m.prefix, Upper(m.command), ParamsOf(m)))
  {
    PrefixedRead(m, map[]);
    assert Print(m) == PrintPrefixed(m);
  }

  /** What a reader must get back of a printed message. */
  ghost predicate ReadsAs(line: Option<Line>, m: Message) {
    && line.Some?
    && SameTags(line.value.tags, m.tags)
    && line.value.prefix == m.prefix
    && Capitals(line.value.command, m.command)
    && line.value.params == ParamsOf(m)
  }

  /**
   The parser inverts the printer for every well-formed message: its tags, its prefix, its command in capitals,
   its middle parameters, and a trailing one with whatever spaces and colons it holds.
   */
  lemma {:induction false} ParseInvertsPrint(m: Message)
    requires Printable(m)
    ensures ReadsAs(Parse(Print(m)), m)
  {
    AssignDistinct(map[], m.tags);
    CommandUnits(m.command);
    if m.tags == [] {
      UntaggedRead(m);
    } else {
      TaggedRead(m);
    }
  }
}
