/** `createChannels`: one adapter per platform (packages/gateway/src/channel/create-channels.ts). */
module Channels {

  datatype Value = Undefined | Null | EmptyString | Given
  datatype Field = Field(key: nat, required: bool)

  /** What calling `create` does: an adapter reporting a platform, a refusal, or a defect. */
  datatype Creation = Adapter(platform: nat) | ConfigError | Defect

  datatype Entry = Entry(platform: nat, fields: seq<Field>, config: map<nat, Value>, creation: Creation)

  datatype Code = DuplicateChannel | MissingRequiredConfig(keys: seq<nat>) | CreateRefused | PlatformMismatch

  datatype Rejection = Rejection(entry: nat, code: Code)

  /** Entries whose adapter was built, in order, and the refused ones; or the throw that propagated. */
  datatype Result = Channels(adapters: seq<nat>, rejected: seq<Rejection>) | Thrown(entry: nat)

  datatype Outcome = Built | Refused(code: Code) | Throws

  function ValueOf(e: Entry, key: nat): Value {
    if key in e.config then e.config[key] else Undefined
  }

  function MissingRequiredKeys(e: Entry, fields: seq<Field>): seq<nat> {
    if fields == [] then []
    else
      (if fields[0].required && ValueOf(e, fields[0].key) != Given then [fields[0].key] else [])
      + MissingRequiredKeys(e, fields[1..])
  }

  function OutcomeOf(e: Entry, built: set<nat>): Outcome {
    if e.platform in built then Refused(DuplicateChannel)
    else if MissingRequiredKeys(e, e.fields) != [] then
      Refused(MissingRequiredConfig(MissingRequiredKeys(e, e.fields)))
    else match e.creation
      case ConfigError => Refused(CreateRefused)
      case Defect => Throws
      case Adapter(p) => if p != e.platform then Refused(PlatformMismatch) else Built
  }

  /** An entry that builds an adapter wherever its platform is still free. */
  predicate Claims(e: Entry) {
    MissingRequiredKeys(e, e.fields) == [] && e.creation == Adapter(e.platform)
  }

  /** The first entry of its platform that can be built. */
  predicate FirstClaim(entries: seq<Entry>, i: nat)
    requires i < |entries|
  {
    Claims(entries[i]) && forall j :: 0 <= j < i && Claims(entries[j]) ==> entries[j].platform != entries[i].platform
  }

  function PlatformsOf(entries: seq<Entry>, adapters: seq<nat>): seq<nat>
    requires forall k :: k in adapters ==> k < |entries|
  {
    seq<nat>(|adapters|, k requires 0 <= k < |adapters| =>
      assert adapters[k] in adapters; entries[adapters[k]].platform)
  }

  predicate Increasing(s: seq<nat>) {
    forall j, k :: 0 <= j < k < |s| ==> s[j] < s[k]
  }

  predicate InOrder(rejected: seq<Rejection>) {
    forall j, k :: 0 <= j < k < |rejected| ==> rejected[j].entry < rejected[k].entry
  }

  /**
   The first `n` entries sorted out: the adapters are exactly the first claims of their platforms, in
   order, and every other entry is rejected once, with the reason it earned.
   */
  ghost predicate Sorted(entries: seq<Entry>, n: nat, adapters: seq<nat>, rejected: seq<Rejection>)
    requires n <= |entries|
  {
    && Increasing(adapters) && InOrder(rejected) && |adapters| + |rejected| == n
    && (forall k :: k in adapters <==> 0 <= k < n && FirstClaim(entries, k))
    && (forall x :: x in rejected ==>
          x.entry < n && OutcomeOf(entries[x.entry], Served(entries, x.entry)) == Refused(x.code))
  }

  predicate MissingField(e: Entry, key: nat) {
    exists i :: 0 <= i < |e.fields| && e.fields[i].required && e.fields[i].key == key && ValueOf(e, key) != Given
  }

  /** The refusal names every missing required key and no other. */
  lemma {:induction false} EveryMissingKeyNamed(e: Entry, fields: seq<Field>, key: nat)
    ensures key in MissingRequiredKeys(e, fields) <==>
            exists i :: 0 <= i < |fields| && fields[i].required && fields[i].key == key && ValueOf(e, key) != Given
    decreases |fields|
  {
    if fields != [] {
      EveryMissingKeyNamed(e, fields[1..], key);
      if i :| 0 <= i < |fields| && fields[i].required && fields[i].key == key && ValueOf(e, key) != Given {
        if i > 0 { assert fields[1..][i - 1] == fields[i]; }
      }
      var tail := fields[1..];
      if i :| 0 <= i < |tail| && tail[i].required && tail[i].key == key && ValueOf(e, key) != Given {
        assert fields[i + 1] == tail[i];
      }
    }
  }

  /**
   What each outcome tells the caller: a duplicate is one whatever its configuration; a refused
   configuration names exactly the missing keys; an adapter reports its own, still free platform.
   */
  ghost predicate Explains(e: Entry, built: set<nat>, outcome: Outcome) {
    && (outcome == Refused(DuplicateChannel) <==> e.platform in built)
    && (e.platform !in built ==>
          (outcome.Refused? && outcome.code.MissingRequiredConfig? <==> exists key :: MissingField(e, key)))
    && (outcome.Refused? && outcome.code.MissingRequiredConfig? ==>
          forall key :: key in outcome.code.keys <==> MissingField(e, key))
    && (outcome.Built? ==> e.creation == Adapter(e.platform) && e.platform !in built)
    && (outcome == Refused(CreateRefused) ==> e.creation.ConfigError?)
    && (outcome == Refused(PlatformMismatch) ==> e.creation.Adapter? && e.creation.platform != e.platform)
    && (outcome.Throws? ==> e.creation.Defect?)
  }

  lemma {:induction false} OutcomeExplains(e: Entry, built: set<nat>)
    ensures Explains(e, built, OutcomeOf(e, built))
  {
    var missing := MissingRequiredKeys(e, e.fields);
    forall key
      ensures key in missing <==> MissingField(e, key)
    {
      EveryMissingKeyNamed(e, e.fields, key);
    }
    if missing != [] { assert missing[0] in missing; }
  }

  /** `refuseBeforeCreate`, then `createAdapter`. */
  method BuildOutcome(entry: Entry, builtPlatforms: set<nat>) returns (outcome: Outcome)
    ensures outcome == OutcomeOf(entry, builtPlatforms) && Explains(entry, builtPlatforms, outcome)
  {
    OutcomeExplains(entry, builtPlatforms);
    if entry.platform in builtPlatforms { return Refused(DuplicateChannel); }
    var missing := MissingRequiredKeys(entry, entry.fields);
    if missing != [] { return Refused(MissingRequiredConfig(missing)); }
    match entry.creation {
      case Defect => outcome := Throws;
      case ConfigError => outcome := Refused(CreateRefused);
      case Adapter(p) => outcome := if p != entry.platform then Refused(PlatformMismatch) else Built;
    }
  }

  /**
   Build every configured channel. The one throw that propagates is a defect of an entry whose
   platform was free and whose configuration was complete.
   */
  method CreateChannels(entries: seq<Entry>) returns (r: Result)
    ensures r.Channels? ==> Sorted(entries, |entries|, r.adapters, r.rejected)
    ensures r.Thrown? ==>
              r.entry < |entries| && OutcomeOf(entries[r.entry], Served(entries, r.entry)) == Throws
  {
    var adapters: seq<nat> := [];
    var rejected: seq<Rejection> := [];
    var builtPlatforms: set<nat> := {};
    for i := 0 to |entries|
      invariant Sorted(entries, i, adapters, rejected) && builtPlatforms == Served(entries, i)
    {
      var outcome := BuildOutcome(entries[i], builtPlatforms);
      OutcomeMeans(entries, i, outcome);
      match outcome {
        case Throws => return Thrown(i);
        case Refused(code) =>
          RejectionAdded(entries, i, adapters, rejected, code);
          rejected := rejected + [Rejection(i, code)];
        case Built =>
          AdapterAdded(entries, i, adapters, rejected);
          adapters := adapters + [i];
          builtPlatforms := builtPlatforms + {entries[i].platform};
      }
    }
    r := Channels(adapters, rejected);
  }

  /** An adapter is built exactly for a first claim, which is what makes its platform served. */
  lemma {:induction false} OutcomeMeans(entries: seq<Entry>, i: nat, outcome: Outcome)
    requires i < |entries| && outcome == OutcomeOf(entries[i], Served(entries, i))
    ensures outcome.Built? <==> FirstClaim(entries, i)
    ensures !outcome.Throws? ==>
              Served(entries, i + 1) == Served(entries, i) + (if outcome.Built? then {entries[i].platform} else {})
  {
  }

  lemma {:induction false} AdapterAdded(entries: seq<Entry>, i: nat, adapters: seq<nat>, rejected: seq<Rejection>)
    requires i < |entries| && Sorted(entries, i, adapters, rejected) && FirstClaim(entries, i)
    ensures Sorted(entries, i + 1, adapters + [i], rejected)
  {
    IncreasingPush(adapters, i);
  }

  lemma {:induction false} RejectionAdded(
      entries: seq<Entry>, i: nat, adapters: seq<nat>, rejected: seq<Rejection>, code: Code)
    requires i < |entries| && Sorted(entries, i, adapters, rejected) && !FirstClaim(entries, i)
    requires OutcomeOf(entries[i], Served(entries, i)) == Refused(code)
    ensures Sorted(entries, i + 1, adapters, rejected + [Rejection(i, code)])
  {
  }

  lemma {:induction false} IncreasingPush(s: seq<nat>, i: nat)
    requires Increasing(s) && forall k :: k in s ==> k < i
    ensures Increasing(s + [i])
  {
    assert forall k :: 0 <= k < |s| ==> s[k] in s;
  }

  /** The platforms served once the first `n` entries were read. */
  function Served(entries: seq<Entry>, n: nat): set<nat>
    requires n <= |entries|
  {
    set i | 0 <= i < n && Claims(entries[i]) :: entries[i].platform
  }

  /** No two adapters report one platform. */
  lemma {:induction false} FirstClaimsDistinct(entries: seq<Entry>, adapters: seq<nat>, rejected: seq<Rejection>)
    requires Sorted(entries, |entries|, adapters, rejected)
    ensures var ps := PlatformsOf(entries, adapters); forall i, j :: 0 <= i < j < |ps| ==> ps[i] != ps[j]
  {
    assert forall k :: 0 <= k < |adapters| ==> adapters[k] in adapters;
    forall i, j | 0 <= i < j < |adapters|
      ensures entries[adapters[i]].platform != entries[adapters[j]].platform
    {
      assert adapters[i] < adapters[j] && FirstClaim(entries, adapters[i]) && FirstClaim(entries, adapters[j]);
    }
  }
}
