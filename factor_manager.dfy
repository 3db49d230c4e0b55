/**
 * The factor-management hook: it reads the service's share descriptions
 * through `getValidFactors`, and sequences `init`, `enableMFA`,
 * `createFactor`, `deleteFactor` and `commitChanges` against the core-kit
 * instance. Every mutation re-synchronises first, retries exactly once on a
 * metadata conflict (error code 1401), and logs the errors it catches
 * instead of raising them.
 */
module FactorManager {
  import opened Wrappers
  import opened JsonValue
  import opened CoreKit

  /** `FactorKeyTypeShareDescription.SeedPhrase`. */
  const SeedPhraseModule: string := "seedPhrase"
  /** The error code of a metadata-version conflict. */
  const ConflictCode: int := 1401

  /**
   * A factor as `getValidFactors` returns it, `{ pub, ...JSON.parse(first) }`
   * or `{ pub, raw: first }`, held as the entry it was built from: its key,
   * its first description, and what `JSON.parse` made of that description
   * (`None` where it threw).
   */
  datatype Factor = Factor(pub: string, first: string, parsed: Option<Json>)

  function FactorOf(parse: string -> Option<Json>, pub: string, first: string): Factor
  {
    Factor(pub, first, parse(first))
  }

  /** The object's properties in order, as `JSON.stringify` walks them. */
  function FieldsOf(f: Factor): Fields
  {
    match f.parsed
    case Some(v) => SpreadAfter("pub", f.pub, v)
    case None => [("pub", JStr(f.pub)), ("raw", JStr(f.first))]
  }

  /**
   * `factor[key]`: a property the parsed description has (a `pub` among
   * them overrides the entry's key), else the entry's key as `pub`, else,
   * for an unparsable description, the text as `raw`.
   */
  function Field(f: Factor, key: string): Option<Json>
  {
    match f.parsed
    case Some(v) =>
      var own := Lookup(OwnEntries(v), key);
      if own.None? && key == "pub" then Some(JStr(f.pub)) else own
    case None =>
      if key == "pub" then Some(JStr(f.pub))
      else if key == "raw" then Some(JStr(f.first))
      else None
  }

  /** Reading a property of the factor agrees with reading the object literal it stands for. */
  lemma FieldIsLookup(f: Factor, key: string)
    ensures Field(f, key) == Lookup(FieldsOf(f), key)
  {
    if f.parsed.None? {
      LookupUnique([("pub", JStr(f.pub)), ("raw", JStr(f.first))], 0);
      LookupUnique([("pub", JStr(f.pub)), ("raw", JStr(f.first))], 1);
    }
  }

  /** The `.map` step: `null` for an entry whose description array is empty. */
  function EntryToFactor(parse: string -> Option<Json>, e: Entry): Option<Factor>
  {
    if |e.1| == 0 then None else Some(FactorOf(parse, e.0, e.1[0]))
  }

  /** The `.filter(Boolean)` step: objects are truthy, `null` is not. */
  function DropNulls(xs: seq<Option<Factor>>): (r: seq<Factor>)
    ensures |r| <= |xs|
  {
    if xs == [] then []
    else if xs[0].None? then DropNulls(xs[1..])
    else [xs[0].value] + DropNulls(xs[1..])
  }

  /** The `.map` over `Object.entries(shareDescriptions)`. */
  function MapEntries(parse: string -> Option<Json>, entries: seq<Entry>): (xs: seq<Option<Factor>>)
    ensures |xs| == |entries|
  {
    if entries == [] then [] else [EntryToFactor(parse, entries[0])] + MapEntries(parse, entries[1..])
  }

  /** `getValidFactors(shareDescriptions)`, in the source's map-then-filter shape. */
  function GetValidFactors(parse: string -> Option<Json>, entries: seq<Entry>): (factors: seq<Factor>)
    ensures |factors| <= |entries|
  {
    DropNulls(MapEntries(parse, entries))
  }

  /** The entries whose description array is non-empty, in order. */
  function NonEmptyEntries(entries: seq<Entry>): seq<Entry>
  {
    if entries == [] then []
    else if |entries[0].1| == 0 then NonEmptyEntries(entries[1..])
    else [entries[0]] + NonEmptyEntries(entries[1..])
  }

  /**
   * `getValidFactors` never fails and yields exactly one factor per entry
   * with a non-empty array, in input order: filter, then build each factor.
   */
  lemma {:induction false} ValidFactorsAreFilterThenBuild(parse: string -> Option<Json>, entries: seq<Entry>)
    ensures
      var kept := NonEmptyEntries(entries);
      && |GetValidFactors(parse, entries)| == |kept|
      && forall i :: 0 <= i < |kept| ==> |kept[i].1| > 0 && GetValidFactors(parse, entries)[i] == FactorOf(parse, kept[i].0, kept[i].1[0])
  {
    if entries != [] {
      ValidFactorsAreFilterThenBuild(parse, entries[1..]);
      var xs := MapEntries(parse, entries);
      assert xs[0] == EntryToFactor(parse, entries[0]) && xs[1..] == MapEntries(parse, entries[1..]);
      var rest, keptRest := GetValidFactors(parse, entries[1..]), NonEmptyEntries(entries[1..]);
      if |entries[0].1| == 0 {
        assert GetValidFactors(parse, entries) == rest && NonEmptyEntries(entries) == keptRest;
      } else {
        var all, kept := GetValidFactors(parse, entries), NonEmptyEntries(entries);
        assert all == [FactorOf(parse, entries[0].0, entries[0].1[0])] + rest;
        assert kept == [entries[0]] + keptRest;
        forall i | 1 <= i < |kept|
          ensures |kept[i].1| > 0 && all[i] == FactorOf(parse, kept[i].0, kept[i].1[0])
        {
          assert kept[i] == keptRest[i - 1] && all[i] == rest[i - 1];
        }
      }
    }
  }

  /** Entries with an empty description array contribute nothing. */
  lemma {:induction false} EmptyEntriesDropped(parse: string -> Option<Json>, entries: seq<Entry>)
    requires forall i :: 0 <= i < |entries| ==> |entries[i].1| == 0
    ensures GetValidFactors(parse, entries) == []
  {
    ValidFactorsAreFilterThenBuild(parse, entries);
    NonEmptyAllEmpty(entries);
  }

  lemma {:induction false} NonEmptyAllEmpty(entries: seq<Entry>)
    requires forall i :: 0 <= i < |entries| ==> |entries[i].1| == 0
    ensures NonEmptyEntries(entries) == []
  {
    if entries != [] {
      NonEmptyAllEmpty(entries[1..]);
    }
  }

  // ---------------------------------------------------------------------------
  // Looking for the seed-phrase factor
  // ---------------------------------------------------------------------------

  /** `factor.module === FactorKeyTypeShareDescription.SeedPhrase` (case-sensitive). */
  predicate IsSeedPhrase(f: Factor)
  {
    Field(f, "module") == Some(JStr(SeedPhraseModule))
  }

  /** `validFactors.some(isSeedPhrase)`, scanning from the front as `some` does. */
  predicate HasSeedPhrase(factors: seq<Factor>)
  {
    factors != [] && (IsSeedPhrase(factors[0]) || HasSeedPhrase(factors[1..]))
  }

  /** `some` holds exactly when some factor is a seed-phrase factor. */
  lemma {:induction false} HasSeedPhraseIff(factors: seq<Factor>)
    ensures HasSeedPhrase(factors) <==> exists i :: 0 <= i < |factors| && IsSeedPhrase(factors[i])
  {
    if factors != [] {
      HasSeedPhraseIff(factors[1..]);
      if exists i :: 0 <= i < |factors| && IsSeedPhrase(factors[i]) {
        var i :| 0 <= i < |factors| && IsSeedPhrase(factors[i]);
        if i > 0 {
          assert factors[1..][i - 1] == factors[i];
        }
      }
      if HasSeedPhrase(factors[1..]) {
        var i :| 0 <= i < |factors[1..]| && IsSeedPhrase(factors[1..][i]);
        assert factors[i + 1] == factors[1..][i];
      }
    }
  }

  /** `validFactors.find(isSeedPhrase)`: the first seed-phrase factor. */
  function FindSeedPhrase(factors: seq<Factor>): (r: Option<Factor>)
    ensures r.Some? <==> HasSeedPhrase(factors)
    ensures r.Some? ==> IsSeedPhrase(r.value)
    ensures r.Some? ==>
      && exists i :: (0 <= i < |factors| && factors[i] == r.value
      && forall j :: 0 <= j < i ==> !IsSeedPhrase(factors[j]))
  {
    if factors == [] then None
    else if IsSeedPhrase(factors[0]) then Some(factors[0])
    else
      var r := FindSeedPhrase(factors[1..]);
      if r.Some? then
        var i :| (0 <= i < |factors[1..]| && factors[1..][i] == r.value
                  && forall j :: 0 <= j < i ==> !IsSeedPhrase(factors[1..][j]));
        assert factors[i + 1] == r.value;
        r
      else r
  }

  /** `seedPhraseFactor?.pub`: the `pub` of the first seed-phrase factor, if any. */
  function SeedPhrasePub(factors: seq<Factor>): Option<Json>
  {
    match FindSeedPhrase(factors)
    case None => None
    case Some(f) => Field(f, "pub")
  }

  // ---------------------------------------------------------------------------
  // The filtered shareDescriptions of getKeyDetails
  // ---------------------------------------------------------------------------

  /** The property key `acc[factor.pub]` writes to. */
  function PubKey(f: Factor): string
  {
    KeyString(Field(f, "pub"))
  }

  /** `factors.reduce((acc, f) => { acc[f.pub] = [JSON.stringify(f)]; return acc }, {})`. */
  function ShareMapOf(stringify: Json -> string, factors: seq<Factor>): map<string, seq<string>>
  {
    if factors == [] then map[]
    else
      var last := factors[|factors| - 1];
      ShareMapOf(stringify, factors[..|factors| - 1])[PubKey(last) := [stringify(JObj(FieldsOf(last)))]]
  }

  /** The `reduce` as the source runs it: one in-place write per factor. */
  method BuildShareMap(stringify: Json -> string, factors: seq<Factor>) returns (acc: map<string, seq<string>>)
    ensures acc == ShareMapOf(stringify, factors)
    ensures acc.Keys == set i | 0 <= i < |factors| :: PubKey(factors[i])
  {
    acc := map[];
    for i := 0 to |factors|
      invariant acc == ShareMapOf(stringify, factors[..i])
    {
      assert factors[..i + 1][..i] == factors[..i];
      acc := acc[PubKey(factors[i]) := [stringify(JObj(FieldsOf(factors[i])))]];
    }
    assert factors[..|factors|] == factors;
    ShareMapKeys(stringify, factors);
  }

  /** The map has a key for every factor's `pub`, and no other. */
  lemma {:induction false} ShareMapKeys(stringify: Json -> string, factors: seq<Factor>)
    ensures ShareMapOf(stringify, factors).Keys == set i | 0 <= i < |factors| :: PubKey(factors[i])
  {
    if factors != [] {
      var n := |factors|;
      var front := factors[..n - 1];
      ShareMapKeys(stringify, front);
      var all := set i | 0 <= i < n :: PubKey(factors[i]);
      var before := set i | 0 <= i < n - 1 :: PubKey(front[i]);
      assert ShareMapOf(stringify, factors).Keys == ShareMapOf(stringify, front).Keys + {PubKey(factors[n - 1])};
      assert all == before + {PubKey(factors[n - 1])} by {
        forall k | k in all
          ensures k in before + {PubKey(factors[n - 1])}
        {
          var i :| 0 <= i < n && k == PubKey(factors[i]);
          if i < n - 1 {
            assert k == PubKey(front[i]);
          }
        }
        forall k | k in before
          ensures k in all
        {
          var i :| 0 <= i < n - 1 && k == PubKey(front[i]);
          assert k == PubKey(factors[i]);
        }
      }
    }
  }

  /**
   * The rebuilt map has one single-element array per key, holding the last
   * factor with that `pub`.
   */
  lemma {:induction false} ShareMapLastWins(stringify: Json -> string, factors: seq<Factor>, i: nat)
    requires i < |factors|
    requires forall j :: i < j < |factors| ==> PubKey(factors[j]) != PubKey(factors[i])
    ensures PubKey(factors[i]) in ShareMapOf(stringify, factors)
    ensures ShareMapOf(stringify, factors)[PubKey(factors[i])] == [stringify(JObj(FieldsOf(factors[i])))]
  {
    if i < |factors| - 1 {
      var front := factors[..|factors| - 1];
      assert front[i] == factors[i];
      ShareMapLastWins(stringify, front, i);
    }
  }

  lemma {:induction false} ShareMapSingletons(stringify: Json -> string, factors: seq<Factor>)
    ensures forall k :: k in ShareMapOf(stringify, factors) ==> |ShareMapOf(stringify, factors)[k]| == 1
  {
    if factors != [] {
      ShareMapSingletons(stringify, factors[..|factors| - 1]);
    }
  }

  // ---------------------------------------------------------------------------
  // Traces of calls to the service
  // ---------------------------------------------------------------------------

  /** The operations that change the key's metadata. */
  predicate Mutating(op: Op)
  {
    op.EnableMfa? || op.CreateFactor? || op.DeleteFactor? || op.CommitChanges?
  }

  /** No call of the trace changes the key's metadata. */
  predicate ReadOnly(t: seq<Call>)
  {
    forall i :: 0 <= i < |t| ==> !Mutating(t[i].op)
  }

  /** `commitChanges` is only called while the service reports `LOGGED_IN`. */
  predicate CommitsOnlyWhenLoggedIn(t: seq<Call>)
  {
    forall i :: 0 <= i < |t| && t[i].op.CommitChanges? ==> t[i].status == LoggedIn
  }

  /**
   * `createFactor` is only called, as a RECOVERY share described as a seed
   * phrase, when the share descriptions hold no seed-phrase factor.
   */
  predicate CreatesOnlyWithoutSeedPhrase(parse: string -> Option<Json>, t: seq<Call>)
  {
    forall i :: 0 <= i < |t| && t[i].op.CreateFactor? ==>
      && !HasSeedPhrase(GetValidFactors(parse, t[i].shares))
      && t[i].op.shareType == Recovery && t[i].op.shareDescription == SeedPhraseModule
  }

  /**
   * In one attempt, the only `deleteFactor` is the third call; it acts on
   * the share descriptions the second call (`getKeyDetails`) read, and
   * removes the point of their first seed-phrase factor's `pub`.
   */
  predicate DeletesFirstSeedPhrase(parse: string -> Option<Json>, fromSec1: Json -> Option<Point>, t: seq<Call>)
  {
    forall i :: 0 <= i < |t| && t[i].op.DeleteFactor? ==>
      && i == 2 && t[1].reply.Returned? && t[2].shares == t[1].reply.shares
      && (var pub := SeedPhrasePub(GetValidFactors(parse, t[2].shares));
          Truthy(pub) && fromSec1(pub.value) == Some(t[2].op.pub))
  }

  /** A `deleteFactor` that returns is followed at once by `commitChanges`. */
  predicate CommitFollowsDelete(t: seq<Call>)
  {
    forall i :: 0 <= i < |t| && t[i].op.DeleteFactor? && t[i].reply.Returned? ==>
      i + 1 < |t| && t[i + 1].op.CommitChanges?
  }

  /** The trace starts with `init` and calls it again only where `from` allows. */
  predicate InitFirst(t: seq<Call>, from: nat)
  {
    t != [] && t[0].op.Init? && forall i :: 0 < i < |t| && i < from ==> !t[i].op.Init?
  }

  /** `b` was made on the state that `a` returned with. */
  predicate Chained(a: Call, b: Call)
  {
    a.reply.Returned? && b.status == a.reply.status && b.shares == a.reply.shares
  }

  /**
   * The trace made the calls `ops` in order, each on the state the call
   * before it left, and stopped short of the end exactly at a call that
   * threw: an `await` that throws leaves the rest of the `try` block.
   */
  predicate Runs(t: seq<Call>, ops: seq<Op>)
  {
    && 1 <= |t| <= |ops|
    && (forall i :: 0 <= i < |t| ==> t[i].op == ops[i])
    && (forall i :: 0 <= i < |t| - 1 ==> Chained(t[i], t[i + 1]))
    && (|t| < |ops| ==> t[|t| - 1].reply.Threw?)
  }

  /** How an attempt that ends with its last call ends: with that call's error if it threw. */
  function Verdict(t: seq<Call>): Outcome<Error>
    requires t != []
  {
    if t[|t| - 1].reply.Threw? then Fail(KitError(t[|t| - 1].reply.code)) else Pass
  }

  /** A run whose every call was made, followed by a run that starts on the state it left, is a run of both plans. */
  lemma RunsAppend(head: seq<Call>, rest: seq<Call>, hops: seq<Op>, ops: seq<Op>)
    requires Runs(head, hops) && |head| == |hops| && Runs(rest, ops)
    requires Chained(head[|head| - 1], rest[0])
    ensures Runs(head + rest, hops + ops)
    ensures (head + rest)[..|head|] == head && (head + rest)[|head|..] == rest
    ensures Verdict(head + rest) == Verdict(rest)
  {
    var t := head + rest;
    assert t[..|head|] == head && t[|head|..] == rest;
    forall i | 0 <= i < |t| - 1
      ensures Chained(t[i], t[i + 1])
    {
      if i + 1 < |head| {
        assert t[i] == head[i] && t[i + 1] == head[i + 1];
      } else if i + 1 == |head| {
        assert t[i] == head[i] && t[i + 1] == rest[0];
      } else {
        assert t[i] == rest[i - |head|] && t[i + 1] == rest[i + 1 - |head|];
      }
    }
    forall i | 0 <= i < |t|
      ensures t[i].op == (hops + ops)[i]
    {
      if i < |head| {
        assert t[i] == head[i];
      } else {
        assert t[i] == rest[i - |head|];
      }
    }
  }

  /** A call that returned, followed by a run that starts on the state it left, is a run of both plans. */
  lemma RunsPrepend(c: Call, rest: seq<Call>, op: Op, ops: seq<Op>)
    requires c.op == op && c.reply.Returned? && Runs(rest, ops) && Chained(c, rest[0])
    ensures Runs([c] + rest, [op] + ops)
    ensures ([c] + rest)[0] == c && ([c] + rest)[1..] == rest
    ensures Verdict([c] + rest) == Verdict(rest)
  {
    RunsAppend([c], rest, [op], ops);
  }

  /** A run that stopped at a throw is also a run of any longer plan. */
  lemma RunsStopped(t: seq<Call>, ops: seq<Op>, more: seq<Op>)
    requires Runs(t, ops) && t[|t| - 1].reply.Threw?
    ensures Runs(t, ops + more)
  {
    forall i | 0 <= i < |t|
      ensures t[i].op == (ops + more)[i]
    {
    }
  }

  // The plans of the three mutations. Each names the calls one attempt
  // makes; which of the conditional calls it makes depends on what the
  // earlier calls of the same attempt returned.

  /** `keyToMnemonic` accepted the key the call returned. */
  predicate Converts(keyToMnemonic: Option<string> -> Option<string>, r: Reply)
  {
    r.Returned? && keyToMnemonic(r.value).Some?
  }

  /** `enableMFA`, then `commitChanges` when the key converted and the service is then logged in. */
  function EnableSteps(keyToMnemonic: Option<string> -> Option<string>, t: seq<Call>): seq<Op>
  {
    [EnableMfa] + (if t != [] && Converts(keyToMnemonic, t[0].reply) && t[0].reply.status == LoggedIn then [CommitChanges] else [])
  }

  /** A key `keyToMnemonic` rejects is a foreign error; otherwise the calls decide. */
  function EnableOutcome(keyToMnemonic: Option<string> -> Option<string>, t: seq<Call>): Outcome<Error>
    requires t != []
  {
    if t[0].reply.Returned? && keyToMnemonic(t[0].reply.value).None? then Fail(ForeignError) else Verdict(t)
  }

  /** One attempt of `enableMFA`: `init`, then the steps above. */
  function MfaSteps(keyToMnemonic: Option<string> -> Option<string>, t: seq<Call>): seq<Op>
  {
    [Init] + EnableSteps(keyToMnemonic, if t == [] then [] else t[1..])
  }

  function MfaOutcome(keyToMnemonic: Option<string> -> Option<string>, t: seq<Call>): Outcome<Error>
    requires t != []
  {
    if |t| == 1 then Verdict(t) else EnableOutcome(keyToMnemonic, t[1..])
  }

  /** `createFactor` with the drawn key, then `commitChanges` when the mnemonic converted and the service is then logged in. */
  function CreateSteps(keyToMnemonic: Option<string> -> Option<string>, key: string, t: seq<Call>): seq<Op>
  {
    [CreateFactor(Recovery, key, SeedPhraseModule)]
      + (if t != [] && t[0].reply.Returned? && keyToMnemonic(Some(key)).Some? && t[0].reply.status == LoggedIn then [CommitChanges] else [])
  }

  function CreateOutcome(keyToMnemonic: Option<string> -> Option<string>, key: string, t: seq<Call>): Outcome<Error>
    requires t != []
  {
    if t[0].reply.Returned? && keyToMnemonic(Some(key)).None? then Fail(ForeignError) else Verdict(t)
  }

  /** The survey read the share descriptions, and they hold no seed-phrase factor. */
  predicate FoundNoSeedPhrase(parse: string -> Option<Json>, t: seq<Call>)
  {
    |t| >= 2 && t[1].reply.Returned? && !HasSeedPhrase(GetValidFactors(parse, t[1].reply.shares))
  }

  /** One attempt of `createMnemonicFactor`: `init`, `getKeyDetails`, and the creation when no seed-phrase factor was found. */
  function CreateAttemptSteps(parse: string -> Option<Json>, keyToMnemonic: Option<string> -> Option<string>, key: string, t: seq<Call>): seq<Op>
  {
    ResyncSteps() + (if FoundNoSeedPhrase(parse, t) then CreateSteps(keyToMnemonic, key, t[2..]) else [])
  }

  function CreateAttemptOutcome(keyToMnemonic: Option<string> -> Option<string>, key: string, t: seq<Call>): Outcome<Error>
    requires t != []
  {
    if |t| <= 2 then Verdict(t) else CreateOutcome(keyToMnemonic, key, t[2..])
  }

  /** The `pub` of the first seed-phrase factor in the descriptions the survey read. */
  function SurveyedPub(parse: string -> Option<Json>, t: seq<Call>): Option<Json>
    requires |t| >= 2 && t[1].reply.Returned?
  {
    SeedPhrasePub(GetValidFactors(parse, t[1].reply.shares))
  }

  /** The survey read the descriptions, found a truthy seed-phrase `pub`, and the user confirmed. */
  predicate ConfirmedTarget(parse: string -> Option<Json>, confirmed: bool, t: seq<Call>)
  {
    |t| >= 2 && t[1].reply.Returned? && confirmed && Truthy(SurveyedPub(parse, t))
  }

  /** The `init` and `getKeyDetails` with which the service is re-synchronised and read. */
  function ResyncSteps(): seq<Op>
  {
    [Init, GetKeyDetails]
  }

  /** The unconditional `commitChanges` after a deletion, and the re-synchronisation. */
  function CommitShowSteps(): seq<Op>
  {
    [CommitChanges] + ResyncSteps()
  }

  /** `deleteFactor(point)`, the unconditional `commitChanges`, and the final `init` and `getKeyDetails`. */
  function DeleteSteps(point: Point): seq<Op>
  {
    [DeleteFactor(point)] + CommitShowSteps()
  }

  /** One attempt of `deleteFactor`: the survey, and the deletion when confirmed and `Point.fromSEC1` succeeds. */
  function DeleteAttemptSteps(parse: string -> Option<Json>, fromSec1: Json -> Option<Point>, confirmed: bool, t: seq<Call>): seq<Op>
  {
    ResyncSteps()
      + (if ConfirmedTarget(parse, confirmed, t) && fromSec1(SurveyedPub(parse, t).value).Some?
         then DeleteSteps(fromSec1(SurveyedPub(parse, t).value).value) else [])
  }

  function DeleteAttemptOutcome(parse: string -> Option<Json>, fromSec1: Json -> Option<Point>, confirmed: bool, t: seq<Call>): Outcome<Error>
    requires t != []
  {
    if |t| == 2 && ConfirmedTarget(parse, confirmed, t) && fromSec1(SurveyedPub(parse, t).value).None? then Fail(ForeignError)
    else Verdict(t)
  }

  /**
   * An `enableMFA` attempt starts with its only `init`, commits only while
   * logged in, and passes exactly when `enableMFA` returned a key that
   * converts and every call it made returned.
   */
  lemma MfaRunRules(keyToMnemonic: Option<string> -> Option<string>, t: seq<Call>)
    requires Runs(t, MfaSteps(keyToMnemonic, t))
    ensures InitFirst(t, |t|) && |t| <= 3 && CommitsOnlyWhenLoggedIn(t)
    ensures MfaOutcome(keyToMnemonic, t).Pass? <==>
      |t| >= 2 && Converts(keyToMnemonic, t[1].reply) && forall i :: 0 <= i < |t| ==> t[i].reply.Returned?
    ensures |t| >= 2 ==> t[1].op.EnableMfa?
  {
    if |t| >= 2 {
      assert t[1..][0] == t[1];
      if |t| == 3 {
        assert Chained(t[1], t[2]) && t[2].op == CommitChanges;
      }
    }
  }

  /** When every call returns and the key converts, the attempt commits exactly when the service is logged in. */
  lemma MfaCommitsWhenLoggedIn(keyToMnemonic: Option<string> -> Option<string>, t: seq<Call>)
    requires Runs(t, MfaSteps(keyToMnemonic, t))
    requires forall i :: 0 <= i < |t| ==> t[i].reply.Returned?
    ensures |t| >= 2
    ensures Converts(keyToMnemonic, t[1].reply) ==> (|t| == 3 <==> t[1].reply.status == LoggedIn)
  {
    assert t[1..][0] == t[1];
  }

  /**
   * A creation attempt starts with its only `init`, commits only while
   * logged in, and creates only a RECOVERY seed-phrase factor with the
   * drawn key and only when the survey found none; when it found one the
   * attempt changes nothing.
   */
  lemma CreateRunRules(parse: string -> Option<Json>, keyToMnemonic: Option<string> -> Option<string>, key: string, t: seq<Call>)
    requires Runs(t, CreateAttemptSteps(parse, keyToMnemonic, key, t))
    ensures InitFirst(t, |t|) && |t| <= 4 && CommitsOnlyWhenLoggedIn(t)
    ensures CreatesOnlyWithoutSeedPhrase(parse, t)
    ensures forall i :: 0 <= i < |t| && t[i].op.CreateFactor? ==> t[i].op.factorKey == key
    ensures !FoundNoSeedPhrase(parse, t) ==> ReadOnly(t)
  {
    if |t| >= 3 {
      assert t[2..][0] == t[2];
      assert Chained(t[1], t[2]);
      if |t| == 4 {
        assert Chained(t[2], t[3]);
      }
    }
  }

  /** When the survey finds no seed-phrase factor, the attempt goes on to `createFactor` with the drawn key. */
  lemma CreatesWhenNoneFound(parse: string -> Option<Json>, keyToMnemonic: Option<string> -> Option<string>, key: string, t: seq<Call>)
    requires Runs(t, CreateAttemptSteps(parse, keyToMnemonic, key, t))
    requires FoundNoSeedPhrase(parse, t)
    ensures |t| >= 3 && t[2].op == CreateFactor(Recovery, key, SeedPhraseModule) && t[2].shares == t[1].reply.shares
  {
    assert Chained(t[1], t[2]);
  }

  /**
   * A deletion attempt calls `init` again only after the deletion, deletes
   * only the point of the first seed-phrase factor's `pub` in what the
   * survey read, commits after every deletion that returns, and changes
   * nothing when there is no such factor or the user declines.
   */
  lemma DeleteRunRules(parse: string -> Option<Json>, fromSec1: Json -> Option<Point>, confirmed: bool, t: seq<Call>)
    requires Runs(t, DeleteAttemptSteps(parse, fromSec1, confirmed, t))
    ensures InitFirst(t, 4) && |t| <= 6
    ensures DeletesFirstSeedPhrase(parse, fromSec1, t)
    ensures CommitFollowsDelete(t)
    ensures !ConfirmedTarget(parse, confirmed, t) ==> ReadOnly(t)
  {
    if |t| >= 3 {
      assert Chained(t[1], t[2]);
    }
  }

  /** When the user confirms a truthy seed-phrase `pub` that parses as a point, the attempt deletes that point. */
  lemma DeletesWhenConfirmed(parse: string -> Option<Json>, fromSec1: Json -> Option<Point>, confirmed: bool, t: seq<Call>)
    requires Runs(t, DeleteAttemptSteps(parse, fromSec1, confirmed, t))
    requires ConfirmedTarget(parse, confirmed, t) && fromSec1(SurveyedPub(parse, t).value).Some?
    ensures |t| >= 3 && t[2].op == DeleteFactor(fromSec1(SurveyedPub(parse, t).value).value)
    ensures t[2].reply.Returned? ==> |t| >= 4 && t[3].op.CommitChanges?
  {
  }

  // ---------------------------------------------------------------------------
  // The hook
  // ---------------------------------------------------------------------------

  /** The foreign functions the hook calls besides the service; `None` where they throw. */
  datatype Foreign = Foreign(
    parse: string -> Option<Json>,
    stringify: Json -> string,
    keyToMnemonic: Option<string> -> Option<string>,
    mnemonicToKey: string -> Option<string>,
    fromSec1: Json -> Option<Point>,
    bnFromHex: string -> Option<nat>)

  /** An error caught inside an operation: thrown by the service (with its `code`) or by foreign code. */
  datatype Error = KitError(code: Option<int>) | ForeignError

  /** The errors the hook raises to its caller. */
  datatype Refusal = InstanceMissing | BackupKeyMissing | KitRaised(code: Option<int>)

  /** What the hook writes to the console. */
  datatype Note =
    | ConflictDetected
    | Failed(error: Error, afterRetry: bool)
    | MfaEnabled(mnemonic: string)
    | SeedPhraseExists
    | FactorCreated(mnemonic: string)
    | DeletionDeclined
    | NoSeedPhraseFactor
    | FactorDeleted(shares: map<string, seq<string>>)
    | KeyDetailsShown(shares: map<string, seq<string>>)
    | FactorKeyAccepted(status: Status)
    | FactorKeyConverted(key: string)
    | DeviceFactorRead(deviceKey: Option<string>)

  predicate IsConflict(r: Outcome<Error>)
  {
    r == Fail(KitError(Some(ConflictCode)))
  }

  /** What a `catch` writes: nothing on a pass, the conflict before the one retry, the error otherwise. */
  function CaughtNotes(r: Outcome<Error>, afterRetry: bool): seq<Note>
  {
    if r.Pass? then [] else if IsConflict(r) && !afterRetry then [ConflictDetected] else [Failed(r.error, afterRetry)]
  }

  /** What `enableMFA` and its commit write: the mnemonic of the new factor key when they pass. */
  function EnableNotes(keyToMnemonic: Option<string> -> Option<string>, t: seq<Call>): seq<Note>
    requires t != []
  {
    if EnableOutcome(keyToMnemonic, t).Pass? && Converts(keyToMnemonic, t[0].reply)
    then [MfaEnabled(keyToMnemonic(t[0].reply.value).value)]
    else []
  }

  /** What an `enableMFA` attempt writes: nothing when `init` throws, otherwise what the steps after it write. */
  function MfaNotes(keyToMnemonic: Option<string> -> Option<string>, t: seq<Call>): seq<Note>
    requires t != []
  {
    if |t| == 1 then [] else EnableNotes(keyToMnemonic, t[1..])
  }

  /** What `createFactor` and its commit write: the mnemonic of the drawn key when they pass. */
  function CreatedNotes(keyToMnemonic: Option<string> -> Option<string>, key: string, t: seq<Call>): seq<Note>
    requires t != []
  {
    if CreateOutcome(keyToMnemonic, key, t).Pass? && keyToMnemonic(Some(key)).Some?
    then [FactorCreated(keyToMnemonic(Some(key)).value)]
    else []
  }

  /** What a creation attempt writes: that a seed phrase exists when the survey found one, otherwise what the creation writes. */
  function CreateNotes(keyToMnemonic: Option<string> -> Option<string>, key: string, t: seq<Call>): seq<Note>
    requires t != []
  {
    if |t| <= 2 then (if Verdict(t).Pass? then [SeedPhraseExists] else [])
    else CreatedNotes(keyToMnemonic, key, t[2..])
  }

  /** What the deletion, its commit and the re-synchronisation write: the factors left, when all four calls returned. */
  function DeletedNotes(parse: string -> Option<Json>, stringify: Json -> string, t: seq<Call>): seq<Note>
    requires t != []
  {
    if Verdict(t).Pass? && |t| == 4 && t[3].reply.Returned?
    then [FactorDeleted(ShareMapOf(stringify, GetValidFactors(parse, t[3].reply.shares)))]
    else []
  }

  /**
   * What a deletion attempt writes: after a survey that passes, that there
   * is no seed-phrase factor or that the user declined; after a deletion,
   * what the deletion writes.
   */
  function DeleteNotes(parse: string -> Option<Json>, fromSec1: Json -> Option<Point>, stringify: Json -> string, confirmed: bool, t: seq<Call>): seq<Note>
    requires t != []
  {
    if |t| <= 2 then
      (if DeleteAttemptOutcome(parse, fromSec1, confirmed, t).Fail? then []
       else if |t| == 2 && t[1].reply.Returned? && Truthy(SurveyedPub(parse, t)) then [DeletionDeclined]
       else [NoSeedPhraseFactor])
    else DeletedNotes(parse, stringify, t[2..])
  }

  class Manager {
    const kit: Service?
    const foreign: Foreign
    /** The `backupFactorKey` state; `None` is `undefined`. */
    var backupFactorKey: Option<string>
    var log: seq<Note>

    constructor(kit: Service?, foreign: Foreign)
      ensures this.kit == kit && this.foreign == foreign
      ensures backupFactorKey == Some("") && log == []
    {
      this.kit, this.foreign := kit, foreign;
      backupFactorKey, log := Some(""), [];
    }

    /** The `shareDescriptions` rebuilt from the valid factors, as they are shown. */
    method FilteredShares(shares: seq<Entry>) returns (shown: map<string, seq<string>>)
      ensures shown == ShareMapOf(foreign.stringify, GetValidFactors(foreign.parse, shares))
    {
      shown := BuildShareMap(foreign.stringify, GetValidFactors(foreign.parse, shares));
    }

    /** The catch block shared by the mutations: is the error a conflict worth one retry? */
    method Caught(r: Outcome<Error>, afterRetry: bool) returns (retry: bool)
      modifies this
      ensures retry <==> r.Fail? && IsConflict(r) && !afterRetry
      ensures backupFactorKey == old(backupFactorKey)
      ensures log == old(log) + CaughtNotes(r, afterRetry)
    {
      retry := r.Fail? && IsConflict(r) && !afterRetry;
      if retry {
        log := log + [ConflictDetected];
      } else if r.Fail? {
        log := log + [Failed(r.error, afterRetry)];
      }
    }

    /** `if (coreKitInstance.status === LOGGED_IN) await coreKitInstance.commitChanges()`. */
    method CommitIfLoggedIn() returns (res: Outcome<Error>, ghost t: seq<Call>)
      requires kit != null
      modifies kit
      ensures kit.calls == old(kit.calls) + t
      ensures Served(old(kit.Now()), t, kit.Now())
      ensures old(kit.status) != LoggedIn ==> t == [] && res == Pass
      ensures old(kit.status) == LoggedIn ==>
        && |t| == 1 && t[0].op == CommitChanges
        && t[0].status == old(kit.status) && t[0].shares == old(kit.shareDescriptions)
        && res == Verdict(t)
    {
      t := [];
      res := Pass;
      if kit.status == LoggedIn {
        var c := kit.Invoke(CommitChanges);
        t := [Call(CommitChanges, old(kit.status), old(kit.shareDescriptions), c)];
        if c.Threw? {
          res := Fail(KitError(c.code));
        }
      }
    }

    /** One run of the `enableMFA` body. */
    method MfaAttempt() returns (res: Outcome<Error>, ghost t: seq<Call>)
      requires kit != null
      modifies this, kit
      ensures kit.calls == old(kit.calls) + t
      ensures Served(old(kit.Now()), t, kit.Now())
      ensures t != [] && t[0].status == old(kit.status) && t[0].shares == old(kit.shareDescriptions)
      ensures Runs(t, MfaSteps(foreign.keyToMnemonic, t))
      ensures res == MfaOutcome(foreign.keyToMnemonic, t)
      ensures res.Pass? ==> |t| >= 2 && backupFactorKey == t[1].reply.value
      ensures res.Fail? ==> backupFactorKey == old(backupFactorKey)
      ensures log == old(log) + MfaNotes(foreign.keyToMnemonic, t)
    {
      var r := kit.Invoke(Init);
      t := [Call(Init, old(kit.status), old(kit.shareDescriptions), r)];
      if r.Threw? {
        return Fail(KitError(r.code)), t;
      }
      ghost var rest, before, mid := [], kit.calls, kit.Now();
      res, rest := EnableAndCommit();
      LogGrows(old(kit.calls), before, kit.calls, t, rest);
      ServedAppend(old(kit.Now()), t, mid, rest, kit.Now());
      RunsPrepend(t[0], rest, Init, EnableSteps(foreign.keyToMnemonic, rest));
      assert [t[0]] == t;
      t := t + rest;
    }

    /** `enableMFA`, the mnemonic of the new factor key, `commitChanges` when logged in, and storing the key. */
    method EnableAndCommit() returns (res: Outcome<Error>, ghost t: seq<Call>)
      requires kit != null
      modifies this, kit
      ensures kit.calls == old(kit.calls) + t
      ensures Served(old(kit.Now()), t, kit.Now())
      ensures t != [] && t[0].status == old(kit.status) && t[0].shares == old(kit.shareDescriptions)
      ensures Runs(t, EnableSteps(foreign.keyToMnemonic, t))
      ensures res == EnableOutcome(foreign.keyToMnemonic, t)
      ensures res.Pass? ==> t[0].reply.Returned? && backupFactorKey == t[0].reply.value
      ensures res.Fail? ==> backupFactorKey == old(backupFactorKey)
      ensures log == old(log) + EnableNotes(foreign.keyToMnemonic, t)
    {
      var r := kit.Invoke(EnableMfa);
      t := [Call(EnableMfa, old(kit.status), old(kit.shareDescriptions), r)];
      if r.Threw? {
        return Fail(KitError(r.code)), t;
      }
      var factorKey := r.value;
      var mnemonic := foreign.keyToMnemonic(factorKey);
      if mnemonic.None? {
        return Fail(ForeignError), t;
      }
      ghost var rest, mid, now := [], kit.calls, kit.Now();
      var c;
      c, rest := CommitIfLoggedIn();
      LogGrows(old(kit.calls), mid, kit.calls, t, rest);
      ServedAppend(old(kit.Now()), t, now, rest, kit.Now());
      if rest != [] {
        RunsPrepend(t[0], rest, EnableMfa, [CommitChanges]);
        assert [t[0]] == t;
      } else {
        assert t + rest == t;
      }
      t := t + rest;
      if c.Fail? {
        return c, t;
      }
      log := log + [MfaEnabled(mnemonic.value)];
      backupFactorKey := factorKey;
      res := Pass;
    }

    /**
     * `enableMFA()`: re-synchronise, enable MFA, commit when logged in, store
     * the new factor key; on a conflict, one more full attempt.
     */
    method EnableMFA() returns (res: Outcome<Refusal>, ghost first: seq<Call>, ghost retry: seq<Call>)
      modifies this, kit
      ensures kit == null ==> res == Fail(InstanceMissing) && backupFactorKey == old(backupFactorKey) && log == old(log)
      ensures kit != null ==> res == Pass && kit.calls == old(kit.calls) + first + retry
      ensures kit != null ==> Served(old(kit.Now()), first + retry, kit.Now())
      ensures kit != null ==> first != [] && Runs(first, MfaSteps(foreign.keyToMnemonic, first))
      ensures kit != null ==> (retry != [] <==> IsConflict(MfaOutcome(foreign.keyToMnemonic, first)))
      ensures retry != [] ==> Runs(retry, MfaSteps(foreign.keyToMnemonic, retry))
      ensures kit != null ==> InitFirst(first, |first|) && CommitsOnlyWhenLoggedIn(first)
      ensures retry != [] ==> InitFirst(retry, |retry|) && CommitsOnlyWhenLoggedIn(retry)
      ensures kit != null ==>
        var last := if retry == [] then first else retry;
        && (MfaOutcome(foreign.keyToMnemonic, last).Pass? ==> |last| >= 2 && backupFactorKey == last[1].reply.value)
        && (MfaOutcome(foreign.keyToMnemonic, last).Fail? ==> backupFactorKey == old(backupFactorKey))
      ensures kit != null && retry == [] ==>
        log == old(log) + MfaNotes(foreign.keyToMnemonic, first) + CaughtNotes(MfaOutcome(foreign.keyToMnemonic, first), false)
      ensures kit != null && retry != [] ==>
        log == old(log) + MfaNotes(foreign.keyToMnemonic, first) + CaughtNotes(MfaOutcome(foreign.keyToMnemonic, first), false)
          + MfaNotes(foreign.keyToMnemonic, retry) + CaughtNotes(MfaOutcome(foreign.keyToMnemonic, retry), true)
    {
      first, retry := [], [];
      if kit == null {
        return Fail(InstanceMissing), first, retry;
      }
      var r;
      r, first := MfaAttempt();
      MfaRunRules(foreign.keyToMnemonic, first);
      ghost var mid := kit.Now();
      var again := Caught(r, false);
      if again {
        r, retry := MfaAttempt();
        MfaRunRules(foreign.keyToMnemonic, retry);
        again := Caught(r, true);
        ServedAppend(old(kit.Now()), first, mid, retry, kit.Now());
      } else {
        assert first + retry == first;
      }
      res := Pass;
    }

    /** The `init` and `getKeyDetails` with which each attempt re-synchronises. */
    method Survey() returns (res: Outcome<Error>, shares: seq<Entry>, ghost t: seq<Call>)
      requires kit != null
      modifies kit
      ensures kit.calls == old(kit.calls) + t
      ensures Served(old(kit.Now()), t, kit.Now())
      ensures t != [] && t[0].status == old(kit.status) && t[0].shares == old(kit.shareDescriptions)
      ensures Runs(t, ResyncSteps()) && ReadOnly(t)
      ensures res == Verdict(t)
      ensures res.Pass? ==>
        && |t| == 2 && shares == t[1].reply.shares
        && kit.status == t[1].reply.status && kit.shareDescriptions == t[1].reply.shares
    {
      var r := kit.Invoke(Init);
      t := [Call(Init, old(kit.status), old(kit.shareDescriptions), r)];
      if r.Threw? {
        return Fail(KitError(r.code)), [], t;
      }
      ghost var before, mid := kit.calls, kit.Now();
      var d := kit.Query(Op.GetKeyDetails);
      ghost var c := [Call(Op.GetKeyDetails, kit.status, kit.shareDescriptions, d)];
      LogGrows(old(kit.calls), before, kit.calls, t, c);
      ServedAppend(old(kit.Now()), t, mid, c, kit.Now());
      t := t + c;
      if d.Threw? {
        return Fail(KitError(d.code)), [], t;
      }
      shares := d.shares;
      res := Pass;
    }

    /** `createFactor` with the drawn key, the mnemonic, and `commitChanges` when logged in. */
    method CreateAndCommit(freshKey: string) returns (res: Outcome<Error>, ghost t: seq<Call>)
      requires kit != null
      modifies this, kit
      ensures kit.calls == old(kit.calls) + t
      ensures Served(old(kit.Now()), t, kit.Now())
      ensures t != [] && t[0].status == old(kit.status) && t[0].shares == old(kit.shareDescriptions)
      ensures Runs(t, CreateSteps(foreign.keyToMnemonic, freshKey, t))
      ensures res == CreateOutcome(foreign.keyToMnemonic, freshKey, t)
      ensures log == old(log) + CreatedNotes(foreign.keyToMnemonic, freshKey, t)
      ensures backupFactorKey == old(backupFactorKey)
    {
      var r := kit.Invoke(CreateFactor(Recovery, freshKey, SeedPhraseModule));
      t := [Call(CreateFactor(Recovery, freshKey, SeedPhraseModule), old(kit.status), old(kit.shareDescriptions), r)];
      if r.Threw? {
        return Fail(KitError(r.code)), t;
      }
      var mnemonic := foreign.keyToMnemonic(Some(freshKey));
      if mnemonic.None? {
        return Fail(ForeignError), t;
      }
      ghost var rest, mid, now := [], kit.calls, kit.Now();
      var c;
      c, rest := CommitIfLoggedIn();
      LogGrows(old(kit.calls), mid, kit.calls, t, rest);
      ServedAppend(old(kit.Now()), t, now, rest, kit.Now());
      if rest != [] {
        RunsPrepend(t[0], rest, CreateFactor(Recovery, freshKey, SeedPhraseModule), [CommitChanges]);
        assert [t[0]] == t;
      } else {
        assert t + rest == t;
      }
      t := t + rest;
      if c.Fail? {
        return c, t;
      }
      log := log + [FactorCreated(mnemonic.value)];
      res := Pass;
    }

    /** One run of the `createMnemonicFactor` body, with the key `generateFactorKey` drew. */
    method CreateAttempt(freshKey: string) returns (res: Outcome<Error>, ghost t: seq<Call>)
      requires kit != null
      modifies this, kit
      ensures kit.calls == old(kit.calls) + t
      ensures Served(old(kit.Now()), t, kit.Now())
      ensures t != [] && t[0].status == old(kit.status) && t[0].shares == old(kit.shareDescriptions)
      ensures Runs(t, CreateAttemptSteps(foreign.parse, foreign.keyToMnemonic, freshKey, t))
      ensures res == CreateAttemptOutcome(foreign.keyToMnemonic, freshKey, t)
      ensures log == old(log) + CreateNotes(foreign.keyToMnemonic, freshKey, t)
      ensures backupFactorKey == old(backupFactorKey)
    {
      var shares;
      res, shares, t := Survey();
      assert ResyncSteps() + [] == ResyncSteps();
      if res.Fail? {
        return;
      }
      if HasSeedPhrase(GetValidFactors(foreign.parse, shares)) {
        log := log + [SeedPhraseExists];
        return Pass, t;
      }
      ghost var rest, mid, now := [], kit.calls, kit.Now();
      res, rest := CreateAndCommit(freshKey);
      LogGrows(old(kit.calls), mid, kit.calls, t, rest);
      ServedAppend(old(kit.Now()), t, now, rest, kit.Now());
      RunsAppend(t, rest, ResyncSteps(), CreateSteps(foreign.keyToMnemonic, freshKey, rest));
      assert (t + rest)[1] == t[1] && (t + rest)[2..] == rest;
      assert FoundNoSeedPhrase(foreign.parse, t + rest);
      assert CreateAttemptSteps(foreign.parse, foreign.keyToMnemonic, freshKey, t + rest)
        == ResyncSteps() + CreateSteps(foreign.keyToMnemonic, freshKey, rest);
      t := t + rest;
    }

    /**
     * `createMnemonicFactor()`: refuses when a seed-phrase factor exists,
     * otherwise creates one and commits when logged in; on a conflict, one
     * more full attempt with a new key.
     */
    method CreateMnemonicFactor(freshKey: string, retryKey: string) returns (res: Outcome<Refusal>, ghost first: seq<Call>, ghost retry: seq<Call>)
      modifies this, kit
      ensures kit == null ==> res == Fail(InstanceMissing) && log == old(log)
      ensures kit != null ==> res == Pass && kit.calls == old(kit.calls) + first + retry
      ensures kit != null ==> Served(old(kit.Now()), first + retry, kit.Now())
      ensures kit != null ==> first != [] && Runs(first, CreateAttemptSteps(foreign.parse, foreign.keyToMnemonic, freshKey, first))
      ensures kit != null ==> (retry != [] <==> IsConflict(CreateAttemptOutcome(foreign.keyToMnemonic, freshKey, first)))
      ensures retry != [] ==> Runs(retry, CreateAttemptSteps(foreign.parse, foreign.keyToMnemonic, retryKey, retry))
      ensures kit != null ==> InitFirst(first, |first|) && CommitsOnlyWhenLoggedIn(first) && CreatesOnlyWithoutSeedPhrase(foreign.parse, first)
      ensures retry != [] ==> InitFirst(retry, |retry|) && CommitsOnlyWhenLoggedIn(retry) && CreatesOnlyWithoutSeedPhrase(foreign.parse, retry)
      ensures kit != null && !FoundNoSeedPhrase(foreign.parse, first) ==> ReadOnly(first)
      ensures retry != [] && !FoundNoSeedPhrase(foreign.parse, retry) ==> ReadOnly(retry)
      ensures kit != null && retry == [] ==>
        log == old(log) + CreateNotes(foreign.keyToMnemonic, freshKey, first)
          + CaughtNotes(CreateAttemptOutcome(foreign.keyToMnemonic, freshKey, first), false)
      ensures kit != null && retry != [] ==>
        log == old(log) + CreateNotes(foreign.keyToMnemonic, freshKey, first)
          + CaughtNotes(CreateAttemptOutcome(foreign.keyToMnemonic, freshKey, first), false)
          + CreateNotes(foreign.keyToMnemonic, retryKey, retry)
          + CaughtNotes(CreateAttemptOutcome(foreign.keyToMnemonic, retryKey, retry), true)
      ensures backupFactorKey == old(backupFactorKey)
    {
      first, retry := [], [];
      if kit == null {
        return Fail(InstanceMissing), first, retry;
      }
      var r;
      r, first := CreateAttempt(freshKey);
      CreateRunRules(foreign.parse, foreign.keyToMnemonic, freshKey, first);
      ghost var mid := kit.Now();
      var again := Caught(r, false);
      if again {
        r, retry := CreateAttempt(retryKey);
        CreateRunRules(foreign.parse, foreign.keyToMnemonic, retryKey, retry);
        again := Caught(r, true);
        ServedAppend(old(kit.Now()), first, mid, retry, kit.Now());
      } else {
        assert first + retry == first;
      }
      res := Pass;
    }

    /** `deleteFactor(point)`, the unconditional `commitChanges`, and the final re-synchronisation. */
    method DeleteAndCommit(point: Point) returns (res: Outcome<Error>, ghost t: seq<Call>)
      requires kit != null
      modifies this, kit
      ensures kit.calls == old(kit.calls) + t
      ensures Served(old(kit.Now()), t, kit.Now())
      ensures t != [] && t[0].status == old(kit.status) && t[0].shares == old(kit.shareDescriptions)
      ensures Runs(t, DeleteSteps(point))
      ensures res == Verdict(t)
      ensures res.Pass? ==> |t| == 4
      ensures log == old(log) + DeletedNotes(foreign.parse, foreign.stringify, t)
      ensures backupFactorKey == old(backupFactorKey)
    {
      var r := kit.Invoke(DeleteFactor(point));
      t := [Call(DeleteFactor(point), old(kit.status), old(kit.shareDescriptions), r)];
      if r.Threw? {
        return Fail(KitError(r.code)), t;
      }
      ghost var rest, mid, now := [], kit.calls, kit.Now();
      res, rest := CommitAndShow();
      LogGrows(old(kit.calls), mid, kit.calls, t, rest);
      ServedAppend(old(kit.Now()), t, now, rest, kit.Now());
      RunsPrepend(t[0], rest, DeleteFactor(point), CommitShowSteps());
      assert [t[0]] == t;
      assert |t + rest| == 4 ==> (t + rest)[3] == rest[2];
      t := t + rest;
    }

    /** The unconditional `commitChanges` after a deletion, then the re-synchronisation. */
    method CommitAndShow() returns (res: Outcome<Error>, ghost t: seq<Call>)
      requires kit != null
      modifies this, kit
      ensures kit.calls == old(kit.calls) + t
      ensures Served(old(kit.Now()), t, kit.Now())
      ensures t != [] && t[0].status == old(kit.status) && t[0].shares == old(kit.shareDescriptions)
      ensures Runs(t, CommitShowSteps())
      ensures res == Verdict(t)
      ensures res.Pass? ==>
        && |t| == 3
        && log == old(log) + [FactorDeleted(ShareMapOf(foreign.stringify, GetValidFactors(foreign.parse, t[2].reply.shares)))]
      ensures res.Fail? ==> log == old(log)
      ensures backupFactorKey == old(backupFactorKey)
    {
      var r := kit.Invoke(CommitChanges);
      t := [Call(CommitChanges, old(kit.status), old(kit.shareDescriptions), r)];
      if r.Threw? {
        return Fail(KitError(r.code)), t;
      }
      ghost var rest, mid, now := [], kit.calls, kit.Now();
      res, rest := ShowAfterDelete();
      LogGrows(old(kit.calls), mid, kit.calls, t, rest);
      ServedAppend(old(kit.Now()), t, now, rest, kit.Now());
      RunsPrepend(t[0], rest, CommitChanges, ResyncSteps());
      assert [t[0]] == t;
      assert |t + rest| == 3 ==> (t + rest)[2] == rest[1];
      t := t + rest;
    }

    /** The re-synchronisation after a deletion, and the display of what remains. */
    method ShowAfterDelete() returns (res: Outcome<Error>, ghost t: seq<Call>)
      requires kit != null
      modifies this, kit
      ensures kit.calls == old(kit.calls) + t
      ensures Served(old(kit.Now()), t, kit.Now())
      ensures t != [] && t[0].status == old(kit.status) && t[0].shares == old(kit.shareDescriptions)
      ensures Runs(t, ResyncSteps())
      ensures res == Verdict(t)
      ensures res.Pass? ==>
        && |t| == 2
        && log == old(log) + [FactorDeleted(ShareMapOf(foreign.stringify, GetValidFactors(foreign.parse, t[1].reply.shares)))]
      ensures res.Fail? ==> log == old(log)
      ensures backupFactorKey == old(backupFactorKey)
    {
      var final;
      res, final, t := Survey();
      if res.Pass? {
        var shown := FilteredShares(final);
        log := log + [FactorDeleted(shown)];
      }
    }

    /** One run of the `deleteFactor` body, with the user's answer to the confirmation. */
    method DeleteAttempt(confirmed: bool) returns (res: Outcome<Error>, ghost t: seq<Call>)
      requires kit != null
      modifies this, kit
      ensures kit.calls == old(kit.calls) + t
      ensures Served(old(kit.Now()), t, kit.Now())
      ensures t != [] && t[0].status == old(kit.status) && t[0].shares == old(kit.shareDescriptions)
      ensures Runs(t, DeleteAttemptSteps(foreign.parse, foreign.fromSec1, confirmed, t))
      ensures res == DeleteAttemptOutcome(foreign.parse, foreign.fromSec1, confirmed, t)
      ensures res.Pass? && |t| > 2 ==> |t| == 6
      ensures log == old(log) + DeleteNotes(foreign.parse, foreign.fromSec1, foreign.stringify, confirmed, t)
      ensures backupFactorKey == old(backupFactorKey)
    {
      var shares;
      res, shares, t := Survey();
      assert ResyncSteps() + [] == ResyncSteps();
      if res.Fail? {
        return;
      }
      ghost var rest, mid, now := [], kit.calls, kit.Now();
      res, rest := DeleteDecide(confirmed, shares);
      LogGrows(old(kit.calls), mid, kit.calls, t, rest);
      ServedAppend(old(kit.Now()), t, now, rest, kit.Now());
      if rest != [] {
        var pub := SeedPhrasePub(GetValidFactors(foreign.parse, shares));
        RunsAppend(t, rest, ResyncSteps(), DeleteSteps(foreign.fromSec1(pub.value).value));
        assert (t + rest)[1] == t[1] && (t + rest)[2..] == rest;
        assert ConfirmedTarget(foreign.parse, confirmed, t + rest);
        assert DeleteAttemptSteps(foreign.parse, foreign.fromSec1, confirmed, t + rest)
          == ResyncSteps() + DeleteSteps(foreign.fromSec1(pub.value).value);
        assert DeleteAttemptOutcome(foreign.parse, foreign.fromSec1, confirmed, t + rest) == Verdict(rest);
        assert DeleteNotes(foreign.parse, foreign.fromSec1, foreign.stringify, confirmed, t + rest)
          == DeletedNotes(foreign.parse, foreign.stringify, rest);
      } else {
        assert t + rest == t;
        assert SurveyedPub(foreign.parse, t) == SeedPhrasePub(GetValidFactors(foreign.parse, shares));
      }
      t := t + rest;
    }

    /** What follows the survey: the checks on the seed-phrase factor and the confirmation, then the deletion. */
    method DeleteDecide(confirmed: bool, shares: seq<Entry>) returns (res: Outcome<Error>, ghost t: seq<Call>)
      requires kit != null && kit.shareDescriptions == shares
      modifies this, kit
      ensures kit.calls == old(kit.calls) + t
      ensures Served(old(kit.Now()), t, kit.Now())
      ensures var pub := SeedPhrasePub(GetValidFactors(foreign.parse, shares));
        if confirmed && Truthy(pub) && foreign.fromSec1(pub.value).Some? then
          && t != [] && t[0].status == old(kit.status) && t[0].shares == shares
          && Runs(t, DeleteSteps(foreign.fromSec1(pub.value).value))
          && res == Verdict(t)
          && (res.Pass? ==> |t| == 4)
          && log == old(log) + DeletedNotes(foreign.parse, foreign.stringify, t)
        else
          && t == []
          && res == (if confirmed && Truthy(pub) then Fail(ForeignError) else Pass)
          && log == old(log) + (if !Truthy(pub) then [NoSeedPhraseFactor] else if !confirmed then [DeletionDeclined] else [])
      ensures backupFactorKey == old(backupFactorKey)
    {
      var pub := SeedPhrasePub(GetValidFactors(foreign.parse, shares));
      if !Truthy(pub) {
        log := log + [NoSeedPhraseFactor];
        return Pass, [];
      }
      if !confirmed {
        log := log + [DeletionDeclined];
        return Pass, [];
      }
      var point := foreign.fromSec1(pub.value);
      if point.None? {
        return Fail(ForeignError), [];
      }
      res, t := DeleteAndCommit(point.value);
    }

    /**
     * `deleteFactor()`: after confirmation, deletes the first seed-phrase
     * factor and always commits; on a conflict, one more full attempt.
     */
    method DeleteSeedPhraseFactor(confirmFirst: bool, confirmRetry: bool) returns (res: Outcome<Refusal>, ghost first: seq<Call>, ghost retry: seq<Call>)
      modifies this, kit
      ensures kit == null ==> res == Fail(InstanceMissing) && log == old(log)
      ensures kit != null ==> res == Pass && kit.calls == old(kit.calls) + first + retry
      ensures kit != null ==> Served(old(kit.Now()), first + retry, kit.Now())
      ensures kit != null ==> first != [] && Runs(first, DeleteAttemptSteps(foreign.parse, foreign.fromSec1, confirmFirst, first))
      ensures kit != null ==> (retry != [] <==> IsConflict(DeleteAttemptOutcome(foreign.parse, foreign.fromSec1, confirmFirst, first)))
      ensures retry != [] ==> Runs(retry, DeleteAttemptSteps(foreign.parse, foreign.fromSec1, confirmRetry, retry))
      ensures kit != null ==> InitFirst(first, 4) && DeletesFirstSeedPhrase(foreign.parse, foreign.fromSec1, first) && CommitFollowsDelete(first)
      ensures retry != [] ==> InitFirst(retry, 4) && DeletesFirstSeedPhrase(foreign.parse, foreign.fromSec1, retry) && CommitFollowsDelete(retry)
      ensures kit != null && !ConfirmedTarget(foreign.parse, confirmFirst, first) ==> ReadOnly(first)
      ensures retry != [] && !ConfirmedTarget(foreign.parse, confirmRetry, retry) ==> ReadOnly(retry)
      ensures kit != null && retry == [] ==>
        log == old(log) + DeleteNotes(foreign.parse, foreign.fromSec1, foreign.stringify, confirmFirst, first)
          + CaughtNotes(DeleteAttemptOutcome(foreign.parse, foreign.fromSec1, confirmFirst, first), false)
      ensures kit != null && retry != [] ==>
        log == old(log) + DeleteNotes(foreign.parse, foreign.fromSec1, foreign.stringify, confirmFirst, first)
          + CaughtNotes(DeleteAttemptOutcome(foreign.parse, foreign.fromSec1, confirmFirst, first), false)
          + DeleteNotes(foreign.parse, foreign.fromSec1, foreign.stringify, confirmRetry, retry)
          + CaughtNotes(DeleteAttemptOutcome(foreign.parse, foreign.fromSec1, confirmRetry, retry), true)
      ensures backupFactorKey == old(backupFactorKey)
    {
      first, retry := [], [];
      if kit == null {
        return Fail(InstanceMissing), first, retry;
      }
      var r;
      r, first := DeleteAttempt(confirmFirst);
      DeleteRunRules(foreign.parse, foreign.fromSec1, confirmFirst, first);
      ghost var mid := kit.Now();
      var again := Caught(r, false);
      if again {
        r, retry := DeleteAttempt(confirmRetry);
        DeleteRunRules(foreign.parse, foreign.fromSec1, confirmRetry, retry);
        again := Caught(r, true);
        ServedAppend(old(kit.Now()), first, mid, retry, kit.Now());
      } else {
        assert first + retry == first;
      }
      res := Pass;
    }

    /**
     * `inputBackupFactorKey()`: reads the stored key as hexadecimal with
     * `new BN` and hands it to the service; the errors of both are logged.
     */
    method InputBackupFactorKey() returns (res: Outcome<Refusal>)
      modifies this, kit
      ensures kit == null ==> res == Fail(InstanceMissing) && log == old(log)
      ensures kit != null ==>
        && |old(kit.calls)| <= |kit.calls| && kit.calls[..|old(kit.calls)|] == old(kit.calls)
        && Served(old(kit.Now()), kit.calls[|old(kit.calls)|..], kit.Now())
      ensures kit != null && (old(backupFactorKey) == None || old(backupFactorKey) == Some("")) ==>
        res == Fail(BackupKeyMissing) && kit.calls == old(kit.calls) && log == old(log)
      ensures kit != null && old(backupFactorKey).Some? && old(backupFactorKey) != Some("") ==>
        && res == Pass
        && var bn := foreign.bnFromHex(old(backupFactorKey).value);
        && (bn.None? ==> kit.calls == old(kit.calls) && log == old(log) + [Failed(ForeignError, false)])
        && (bn.Some? ==>
              && |kit.calls| == |old(kit.calls)| + 1 && kit.calls[..|old(kit.calls)|] == old(kit.calls)
              && var c := kit.calls[|old(kit.calls)|];
              && c.op == InputFactorKey(bn.value)
              && log == old(log) + (if c.reply.Threw? then [Failed(KitError(c.reply.code), false)]
                                    else if c.reply.status == LoggedIn || c.reply.status == RequiredShare then [FactorKeyAccepted(c.reply.status)]
                                    else []))
      ensures backupFactorKey == old(backupFactorKey)
    {
      if kit == null {
        return Fail(InstanceMissing);
      }
      if backupFactorKey == None || backupFactorKey == Some("") {
        return Fail(BackupKeyMissing);
      }
      var factorKey := foreign.bnFromHex(backupFactorKey.value);
      if factorKey.None? {
        log := log + [Failed(ForeignError, false)];
        return Pass;
      }
      var r := kit.Invoke(InputFactorKey(factorKey.value));
      if r.Threw? {
        log := log + [Failed(KitError(r.code), false)];
      } else if kit.status == LoggedIn || kit.status == RequiredShare {
        log := log + [FactorKeyAccepted(kit.status)];
      }
      res := Pass;
    }

    /** `mnemonicToFactorKeyHex(mnemonic)`: stores and returns the converted key; `undefined` when conversion throws. */
    method MnemonicToFactorKeyHex(mnemonic: string) returns (res: Result<Option<string>, Refusal>)
      modifies this
      ensures kit == null ==> res == Failure(InstanceMissing) && backupFactorKey == old(backupFactorKey)
      ensures kit != null ==> res == Success(foreign.mnemonicToKey(mnemonic))
      ensures kit != null && foreign.mnemonicToKey(mnemonic).Some? ==> backupFactorKey == foreign.mnemonicToKey(mnemonic)
      ensures foreign.mnemonicToKey(mnemonic).None? ==> backupFactorKey == old(backupFactorKey)
      ensures kit == null ==> log == old(log)
      ensures kit != null ==> log == old(log) + [if foreign.mnemonicToKey(mnemonic).Some? then FactorKeyConverted(foreign.mnemonicToKey(mnemonic).value) else Failed(ForeignError, false)]
    {
      if kit == null {
        return Failure(InstanceMissing);
      }
      var key := foreign.mnemonicToKey(mnemonic);
      if key.Some? {
        backupFactorKey := key;
        log := log + [FactorKeyConverted(key.value)];
      } else {
        log := log + [Failed(ForeignError, false)];
      }
      res := Success(key);
    }

    /** `getDeviceFactor()`: stores what the service returns (possibly `undefined`); errors are logged. */
    method GetDeviceFactor() returns (res: Outcome<Refusal>)
      modifies this, kit
      ensures kit == null ==> res == Fail(InstanceMissing) && backupFactorKey == old(backupFactorKey) && log == old(log)
      ensures kit != null ==> res == Pass && |kit.calls| == |old(kit.calls)| + 1
      ensures kit != null ==>
        && |old(kit.calls)| <= |kit.calls| && kit.calls[..|old(kit.calls)|] == old(kit.calls)
        && Served(old(kit.Now()), kit.calls[|old(kit.calls)|..], kit.Now())
      ensures kit != null ==> kit.calls[|kit.calls| - 1].op == Op.GetDeviceFactor
      ensures kit != null ==> var reply := kit.calls[|kit.calls| - 1].reply;
        && backupFactorKey == (if reply.Returned? then reply.value else old(backupFactorKey))
        && log == old(log) + [if reply.Returned? then DeviceFactorRead(reply.value) else Failed(KitError(reply.code), false)]
    {
      if kit == null {
        return Fail(InstanceMissing);
      }
      var r := kit.Invoke(Op.GetDeviceFactor);
      if r.Returned? {
        backupFactorKey := r.value;
        log := log + [DeviceFactorRead(r.value)];
      } else {
        log := log + [Failed(KitError(r.code), false)];
      }
      res := Pass;
    }

    /**
     * `getKeyDetails()`: shows the details with `shareDescriptions` rebuilt
     * from the valid factors; the call is outside any `try`, so its error
     * reaches the caller.
     */
    method GetKeyDetails() returns (res: Result<map<string, seq<string>>, Refusal>)
      modifies this, kit
      ensures kit == null ==> res == Failure(InstanceMissing) && log == old(log)
      ensures kit != null ==> |kit.calls| == |old(kit.calls)| + 1
      ensures kit != null ==>
        && |old(kit.calls)| <= |kit.calls| && kit.calls[..|old(kit.calls)|] == old(kit.calls)
        && Served(old(kit.Now()), kit.calls[|old(kit.calls)|..], kit.Now())
      ensures kit != null ==>
        var c := kit.calls[|old(kit.calls)|];
        && c.op == Op.GetKeyDetails && c.shares == old(kit.shareDescriptions)
        && (c.reply.Threw? ==> res == Failure(KitRaised(c.reply.code)) && log == old(log))
        && (c.reply.Returned? ==>
              && res == Success(ShareMapOf(foreign.stringify, GetValidFactors(foreign.parse, old(kit.shareDescriptions))))
              && log == old(log) + [KeyDetailsShown(res.value)])
      ensures backupFactorKey == old(backupFactorKey)
    {
      if kit == null {
        return Failure(InstanceMissing);
      }
      var d := kit.Query(Op.GetKeyDetails);
      if d.Threw? {
        return Failure(KitRaised(d.code));
      }
      var shown := FilteredShares(d.shares);
      log := log + [KeyDetailsShown(shown)];
      res := Success(shown);
    }
  }
}
