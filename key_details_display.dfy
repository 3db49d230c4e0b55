/**
 * The key-details panel: the public keys it prints, the factor list it
 * parses out of `shareDescriptions` and sorts by `tssShareIndex`, the
 * classification of each factor by its `module`, and the shortened `pub`
 * it shows. Rendering itself is not modelled; where the component would
 * throw while rendering, the functions give `TypeError`.
 */
module KeyDetailsDisplay {
  import opened Wrappers
  import Text
  import Sorting
  import opened JsonValue
  import opened CoreKit
  import FactorManager

  /** The `TypeError` the render function throws (a property or method of `null`/`undefined`). */
  datatype DisplayError = TypeError

  // ---------------------------------------------------------------------------
  // formatPubKey
  // ---------------------------------------------------------------------------

  /** A coordinate of the key object: a `BN`, a string, or missing. */
  datatype Coord = BigNum(n: nat) | Chars(s: string) | Absent

  datatype PubKey = PubKey(x: Coord, y: Coord)

  /** `c?.toString('hex') || c || ''`. */
  function CoordString(c: Coord): string
  {
    match c
    case BigNum(n) => Text.NatToString(n, 16)
    case Chars(s) => s
    case Absent => ""
  }

  /** `formatPubKey(pubKey)`; `None` is a falsy key. */
  function FormatPubKey(key: Option<PubKey>): (r: (string, string))
    ensures key.None? ==> r == ("", "")
    ensures key.Some? && key.value.x.BigNum? ==> HexReadsBack(r.0, key.value.x.n)
    ensures key.Some? && key.value.y.BigNum? ==> HexReadsBack(r.1, key.value.y.n)
    ensures key.Some? && key.value.x.Absent? ==> r.0 == ""
    ensures key.Some? && key.value.y.Absent? ==> r.1 == ""
  {
    match key
    case None => ("", "")
    case Some(k) =>
      Text.DigitsValueOfRendering(if k.x.BigNum? then k.x.n else 0, 16);
      Text.DigitsValueOfRendering(if k.y.BigNum? then k.y.n else 0, 16);
      (CoordString(k.x), CoordString(k.y))
  }

  /** `s` is made of hexadecimal digits only, and they denote `n`. */
  predicate HexReadsBack(s: string, n: nat)
  {
    && s != []
    && (forall i :: 0 <= i < |s| ==> Text.DigitOf(s[i], 16).Some?)
    && Text.DigitsValue(Text.DigitPrefix(s, 16), 16) == n
  }

  // ---------------------------------------------------------------------------
  // parseShares
  // ---------------------------------------------------------------------------

  /**
   * The shares the `forEach` pushes: the parsed first description of every
   * entry whose array is non-empty; a description that does not parse is
   * skipped (and logged).
   */
  function Collected(parse: string -> Option<Json>, entries: seq<Entry>): (shares: seq<Json>)
    ensures |shares| <= |entries|
  {
    if entries == [] then []
    else
      var e := entries[0];
      (if |e.1| > 0 && parse(e.1[0]).Some? then [parse(e.1[0]).value] else [])
        + Collected(parse, entries[1..])
  }

  lemma {:induction false} CollectedAppend(parse: string -> Option<Json>, a: seq<Entry>, b: seq<Entry>)
    ensures Collected(parse, a + b) == Collected(parse, a) + Collected(parse, b)
  {
    if a != [] {
      var e := a[0];
      var head := if |e.1| > 0 && parse(e.1[0]).Some? then [parse(e.1[0]).value] else [];
      assert (a + b)[0] == e;
      assert (a + b)[1..] == a[1..] + b;
      CollectedAppend(parse, a[1..], b);
      assert Collected(parse, a + b) == head + (Collected(parse, a[1..]) + Collected(parse, b));
    } else {
      assert a + b == b;
    }
  }

  /**
   * `share.tssShareIndex` as the subtraction converts it: a number, a
   * boolean or `null`; anything else is NaN (`None`).
   */
  function ShareIndex(share: Json): Option<int>
  {
    match Get(share, "tssShareIndex")
    case Some(JNum(n)) => Some(n)
    case Some(JBool(b)) => Some(if b then 1 else 0)
    case Some(JNull) => Some(0)
    case _ => None
  }

  /** The index the sort orders by; a NaN difference compares as equal, taken here as index 0. */
  function SortKey(share: Json): int
  {
    ShareIndex(share).GetOr(0)
  }

  /** `(a, b) => a.tssShareIndex - b.tssShareIndex` does not put `b` first. */
  predicate ComesBefore(a: Json, b: Json)
  {
    SortKey(a) <= SortKey(b)
  }

  lemma ComesBeforeIsPreorder()
    ensures Sorting.TotalPreorder(ComesBefore)
  {
  }

  /**
   * `shares.sort(byIndex)`: with two or more shares every share meets the
   * comparator, and `null.tssShareIndex` throws.
   */
  function SortShares(shares: seq<Json>): (r: Result<seq<Json>, DisplayError>)
    ensures r.Failure? <==> |shares| >= 2 && JNull in shares
    ensures r.Success? ==> multiset(r.value) == multiset(shares)
  {
    if |shares| >= 2 && JNull in shares then Failure(TypeError)
    else Success(Sorting.SortBy(shares, ComesBefore))
  }

  /** The shares are in non-decreasing `tssShareIndex` order. */
  predicate SortedByIndex(shares: seq<Json>)
  {
    forall i, j :: 0 <= i < j < |shares| ==> SortKey(shares[i]) <= SortKey(shares[j])
  }

  /** What `SortShares` returns is ordered by index. */
  lemma SortSharesSorted(shares: seq<Json>)
    ensures SortShares(shares).Success? ==> SortedByIndex(SortShares(shares).value)
  {
    ComesBeforeIsPreorder();
    Sorting.SortBySorted(shares, ComesBefore);
  }

  /** `parseShares()`: the `forEach` that collects, then the sort. */
  method ParseShares(parse: string -> Option<Json>, entries: seq<Entry>) returns (r: Result<seq<Json>, DisplayError>)
    ensures r == SortShares(Collected(parse, entries))
    ensures r.Success? ==> |r.value| <= |entries| && SortedByIndex(r.value)
    ensures r.Success? ==> multiset(r.value) == multiset(Collected(parse, entries))
  {
    var shares: seq<Json> := [];
    var i := 0;
    while i < |entries|
      invariant 0 <= i <= |entries|
      invariant shares == Collected(parse, entries[..i])
    {
      var arr := entries[i].1;
      if |arr| > 0 {
        var parsed := parse(arr[0]);
        if parsed.Some? {
          shares := shares + [parsed.value];
        }
      }
      CollectedAppend(parse, entries[..i], [entries[i]]);
      assert entries[..i + 1] == entries[..i] + [entries[i]];
      i := i + 1;
    }
    assert entries[..i] == entries;
    SortSharesSorted(shares);
    r := SortShares(shares);
  }

  // ---------------------------------------------------------------------------
  // parseShares against getValidFactors
  // ---------------------------------------------------------------------------

  /** The parsed descriptions of the factors that have one, in order. */
  function ParsedOf(factors: seq<FactorManager.Factor>): (r: seq<Json>)
    ensures |r| <= |factors|
  {
    if factors == [] then []
    else (if factors[0].parsed.Some? then [factors[0].parsed.value] else []) + ParsedOf(factors[1..])
  }

  /** `getValidFactors` on a non-empty list: the first entry's factor, if any, then the rest. */
  lemma ValidFactorsCons(parse: string -> Option<Json>, entries: seq<Entry>)
    requires entries != []
    ensures FactorManager.GetValidFactors(parse, entries) ==
      (if |entries[0].1| == 0 then [] else [FactorManager.FactorOf(parse, entries[0].0, entries[0].1[0])])
        + FactorManager.GetValidFactors(parse, entries[1..])
  {
    var xs := FactorManager.MapEntries(parse, entries);
    assert xs[0] == FactorManager.EntryToFactor(parse, entries[0]);
    assert xs[1..] == FactorManager.MapEntries(parse, entries[1..]);
  }

  /**
   * `parseShares` collects exactly the parsed descriptions of the factors
   * `getValidFactors` builds: the same entries, in the same order, minus
   * those whose description does not parse.
   */
  lemma {:induction false} CollectedAreParsedFactors(parse: string -> Option<Json>, entries: seq<Entry>)
    ensures Collected(parse, entries) == ParsedOf(FactorManager.GetValidFactors(parse, entries))
  {
    if entries != [] {
      ValidFactorsCons(parse, entries);
      CollectedAreParsedFactors(parse, entries[1..]);
      var head := if |entries[0].1| == 0 then [] else [FactorManager.FactorOf(parse, entries[0].0, entries[0].1[0])];
      ParsedOfAppend(head, FactorManager.GetValidFactors(parse, entries[1..]));
    }
  }

  lemma {:induction false} ParsedOfAppend(a: seq<FactorManager.Factor>, b: seq<FactorManager.Factor>)
    ensures ParsedOf(a + b) == ParsedOf(a) + ParsedOf(b)
  {
    if a != [] {
      var head := if a[0].parsed.Some? then [a[0].parsed.value] else [];
      assert (a + b)[0] == a[0];
      assert (a + b)[1..] == a[1..] + b;
      ParsedOfAppend(a[1..], b);
      assert ParsedOf(a + b) == head + (ParsedOf(a[1..]) + ParsedOf(b));
    } else {
      assert a + b == b;
    }
  }

  /**
   * `parseShares` lists as many shares as `getValidFactors` yields factors
   * exactly when every non-empty entry's first description parses.
   */
  lemma {:induction false} SameCountIffAllParse(parse: string -> Option<Json>, entries: seq<Entry>)
    ensures |Collected(parse, entries)| <= |FactorManager.GetValidFactors(parse, entries)|
    ensures |Collected(parse, entries)| == |FactorManager.GetValidFactors(parse, entries)| <==>
      forall i :: 0 <= i < |entries| && |entries[i].1| > 0 ==> parse(entries[i].1[0]).Some?
  {
    if entries != [] {
      ValidFactorsCons(parse, entries);
      SameCountIffAllParse(parse, entries[1..]);
      if forall i :: 0 <= i < |entries| && |entries[i].1| > 0 ==> parse(entries[i].1[0]).Some? {
        assert forall i :: 0 <= i < |entries[1..]| && |entries[1..][i].1| > 0 ==> parse(entries[1..][i].1[0]).Some? by {
          forall i | 0 <= i < |entries[1..]|
            ensures entries[1..][i] == entries[i + 1]
          {
          }
        }
      } else {
        var i :| 0 <= i < |entries| && |entries[i].1| > 0 && parse(entries[i].1[0]).None?;
        if i > 0 {
          assert entries[1..][i - 1] == entries[i];
        }
      }
    }
  }

  // ---------------------------------------------------------------------------
  // getFactorTypeInfo
  // ---------------------------------------------------------------------------

  datatype FactorKind = RecoveryShare | HashedShare | DeviceShare | OtherShare | Unknown

  /** The badge the panel draws: icon, name, type label and border colour. */
  datatype TypeInfo = TypeInfo(icon: string, name: string, typeLabel: string, color: string)

  /** The first matching branch for the lower-cased `module`. */
  function ClassifyModule(moduleName: string, hasBrowser: bool): FactorKind
  {
    var m := Text.ToLower(moduleName);
    if m == "seedphrase" then RecoveryShare
    else if m == "hashedshare" then HashedShare
    else if m == "other" && hasBrowser then DeviceShare
    else if m == "other" then OtherShare
    else Unknown
  }

  function InfoOf(kind: FactorKind): TypeInfo
  {
    match kind
    case RecoveryShare => TypeInfo("\U{1F331}", "助记词因子", "Recovery Share", "#4CAF50")
    case HashedShare => TypeInfo("\U{1F510}", "哈希因子", "Hashed Share", "#2196F3")
    case DeviceShare => TypeInfo("\U{1F4F1}", "设备因子", "Device Share", "#FF9800")
    case OtherShare => TypeInfo("\U{1F511}", "其他因子", "Other Share", "#9C27B0")
    case Unknown => TypeInfo("\U{2753}", "未知因子", "Unknown", "#757575")
  }

  /**
   * `getFactorTypeInfo(share)`: `share.module.toLowerCase()` throws unless
   * `module` is a string; a truthy `browserName` marks a device.
   */
  function GetFactorTypeInfo(share: Json): (r: Result<TypeInfo, DisplayError>)
    ensures r.Success? <==> Get(share, "module").Some? && Get(share, "module").value.JStr?
  {
    match Get(share, "module")
    case Some(JStr(m)) => Success(InfoOf(ClassifyModule(m, Truthy(Get(share, "browserName")))))
    case _ => Failure(TypeError)
  }

  /** Two `module` strings that differ only in letter case classify alike. */
  lemma ClassifyIgnoresCase(m1: string, m2: string, hasBrowser: bool)
    requires |m1| == |m2|
    requires forall i :: 0 <= i < |m1| ==> Text.LowerChar(m1[i]) == Text.LowerChar(m2[i])
    ensures ClassifyModule(m1, hasBrowser) == ClassifyModule(m2, hasBrowser)
  {
    assert Text.ToLower(m1) == Text.ToLower(m2);
  }

  /** Each kind, and the condition on the lower-cased `module` that selects it. */
  lemma ClassificationIsFirstMatch(moduleName: string, hasBrowser: bool)
    ensures var m := Text.ToLower(moduleName); var k := ClassifyModule(moduleName, hasBrowser);
      && (k == RecoveryShare <==> m == "seedphrase")
      && (k == HashedShare <==> m == "hashedshare")
      && (k == DeviceShare <==> m == "other" && hasBrowser)
      && (k == OtherShare <==> m == "other" && !hasBrowser)
      && (k == Unknown <==> m != "seedphrase" && m != "hashedshare" && m != "other")
  {
  }

  /** The seed-phrase factor the hook creates (`module` "seedPhrase") shows as a Recovery Share. */
  lemma SeedPhraseShowsAsRecovery(hasBrowser: bool)
    ensures ClassifyModule(FactorManager.SeedPhraseModule, hasBrowser) == RecoveryShare
  {
    var m := Text.ToLower(FactorManager.SeedPhraseModule);
    assert m[4] == 'p';
    assert m == "seedphrase";
  }

  /** Different kinds get different badges. */
  lemma InfoDistinguishesKinds(k1: FactorKind, k2: FactorKind)
    ensures k1 != k2 ==> InfoOf(k1).typeLabel != InfoOf(k2).typeLabel && InfoOf(k1).color != InfoOf(k2).color
  {
  }

  // ---------------------------------------------------------------------------
  // The shortened public key
  // ---------------------------------------------------------------------------

  /** `${pub.slice(0, 20)}...${pub.slice(-20)}`. */
  function DisplayPub(pub: string): (r: string)
    ensures var k := if |pub| < 20 then |pub| else 20;
      r == pub[..k] + "..." + pub[|pub| - k..]
  {
    Text.Slice(pub, 0, 20) + "..." + Text.Slice(pub, -20, |pub|)
  }

  /** A key of 40 characters or more shows its first and last 20 around "..."; a short one shows twice. */
  lemma DisplayPubShape(pub: string)
    ensures |pub| >= 40 ==>
      (|DisplayPub(pub)| == 43 && DisplayPub(pub)[..20] == pub[..20] && DisplayPub(pub)[23..] == pub[|pub| - 20..])
    ensures |pub| <= 20 ==> DisplayPub(pub) == pub + "..." + pub
  {
    if |pub| <= 20 {
      assert pub[..|pub|] == pub && pub[0..] == pub;
    }
  }
}
