/**
 * The version-1 backup record and the name of the file that holds it. The
 * name embeds the ISO-8601 creation instant with `:` replaced by `-` and
 * the fractional seconds removed, so that it is safe as a file name and
 * sorts like the instant it was made at.
 */
module BackupFormat {
  import opened Wrappers
  import Text
  import opened JsonValue
  import CryptoBox

  const FormatVersion: int := 1
  const AppTag: string := "w3a-mpc"
  /** The file-name prefix; also the filter the Drive listing uses by default. */
  const FilePrefix: string := "w3a-mpc-backup-"
  const FileSuffix: string := ".json"

  datatype ShareType = Recovery | Device | Server

  function ShareTypeName(t: ShareType): string
  {
    match t
    case Recovery => "RECOVERY"
    case Device => "DEVICE"
    case Server => "SERVER"
  }

  datatype BackupRecord = BackupRecord(
    v: int,
    app: string,
    createdAt: string,
    userLabel: Option<string>,
    shareType: ShareType,
    shareDescription: Option<string>,
    encrypted: CryptoBox.EncryptedPayload)

  /** The record type pins the version and the application tag. */
  type W3aMpcBackupV1 = r: BackupRecord | r.v == FormatVersion && r.app == AppTag
    witness BackupRecord(1, "w3a-mpc", "", None, Recovery, None,
      CryptoBox.EncryptedPayload(CryptoBox.KdfParams("", "", 0, ""), CryptoBox.CipherParams("", ""), ""))

  // ---------------------------------------------------------------------------
  // JSON form
  // ---------------------------------------------------------------------------

  function KdfToJson(k: CryptoBox.KdfParams): Json
  {
    JObj([("name", JStr(k.name)), ("hash", JStr(k.hash)), ("iterations", JNum(k.iterations)), ("saltB64", JStr(k.saltB64))])
  }

  function CipherToJson(c: CryptoBox.CipherParams): Json
  {
    JObj([("name", JStr(c.name)), ("ivB64", JStr(c.ivB64))])
  }

  function PayloadToJson(e: CryptoBox.EncryptedPayload): Json
  {
    JObj([("kdf", KdfToJson(e.kdf)), ("cipher", CipherToJson(e.cipher)), ("ciphertextB64", JStr(e.ciphertextB64))])
  }

  function OptionalField(key: string, v: Option<string>): Fields
  {
    if v.Some? then [(key, JStr(v.value))] else []
  }

  /** `JSON.stringify(record)` as a value: an `undefined` optional field is left out. */
  function ToJson(r: BackupRecord): Json
  {
    JObj([("v", JNum(r.v)), ("app", JStr(r.app)), ("createdAt", JStr(r.createdAt))]
      + OptionalField("label", r.userLabel)
      + [("shareType", JStr(ShareTypeName(r.shareType)))]
      + OptionalField("shareDescription", r.shareDescription)
      + [("encrypted", PayloadToJson(r.encrypted))])
  }

  function StringField(v: Option<Json>): Option<string>
  {
    if v.Some? && v.value.JStr? then Some(v.value.s) else None
  }

  /** A recorded name, or "" where the property is absent or not a string; decryption never reads it. */
  function NameField(v: Option<Json>): string
  {
    if v.Some? && v.value.JStr? then v.value.s else ""
  }

  /**
   * The count `deriveKey` receives from `kdf.iterations`: its default when
   * the property is absent, and otherwise the number WebIDL makes of the
   * value (`null` and `false` are 0, `true` is 1). Strings, arrays and
   * objects are not converted.
   */
  function IterationsOf(v: Option<Json>): (n: Option<int>)
    ensures v.None? ==> n == Some(CryptoBox.DefaultIterations)
    ensures n.Some? && n.value != CryptoBox.DefaultIterations && n.value != 0 && n.value != 1 ==> v == Some(JNum(n.value))
  {
    match v
    case None => Some(CryptoBox.DefaultIterations)
    case Some(JNum(n)) => Some(n)
    case Some(JNull) => Some(0)
    case Some(JBool(b)) => Some(if b then 1 else 0)
    case Some(_) => None
  }

  /**
   * The key-derivation parameters `decryptText` reads from `encrypted.kdf`:
   * the salt and the iteration count; the names are carried along when present.
   */
  function KdfOf(kdf: Json): Option<CryptoBox.KdfParams>
  {
    var iterations := IterationsOf(Get(kdf, "iterations"));
    var salt := StringField(Get(kdf, "saltB64"));
    if iterations.Some? && salt.Some?
    then Some(CryptoBox.KdfParams(NameField(Get(kdf, "name")), NameField(Get(kdf, "hash")), iterations.value, salt.value))
    else None
  }

  /** The cipher parameters `decryptText` reads from `encrypted.cipher`: the IV. */
  function CipherOf(cipher: Json): Option<CryptoBox.CipherParams>
  {
    var iv := StringField(Get(cipher, "ivB64"));
    if iv.Some? then Some(CryptoBox.CipherParams(NameField(Get(cipher, "name")), iv.value)) else None
  }

  /**
   * The envelope `decryptText` reads from `record.encrypted`: `None` where a
   * property access on a missing object throws, or a field has the wrong type.
   */
  function PayloadOf(v: Option<Json>): Option<CryptoBox.EncryptedPayload>
  {
    if v.None? then None
    else
      var kdf := Get(v.value, "kdf");
      var cipher := Get(v.value, "cipher");
      if kdf.None? || cipher.None? then None
      else
        var k := KdfOf(kdf.value);
        var c := CipherOf(cipher.value);
        var ct := StringField(Get(v.value, "ciphertextB64"));
        if k.Some? && c.Some? && ct.Some? then Some(CryptoBox.EncryptedPayload(k.value, c.value, ct.value)) else None
  }

  /** A stored record reads back with its version, tag and envelope unchanged. */
  lemma {:induction false} ReadBack(r: BackupRecord)
    ensures Get(ToJson(r), "v") == Some(JNum(r.v))
    ensures Get(ToJson(r), "app") == Some(JStr(r.app))
    ensures Get(ToJson(r), "createdAt") == Some(JStr(r.createdAt))
    ensures PayloadOf(Get(ToJson(r), "encrypted")) == Some(r.encrypted)
  {
    var lab := OptionalField("label", r.userLabel);
    var desc := OptionalField("shareDescription", r.shareDescription);
    var fs := ToJson(r).fields;
    var n := |fs|;
    assert n == 5 + |lab| + |desc|;
    forall i | 0 <= i < n
      ensures fs[i].0 in {"v", "app", "createdAt", "label", "shareType", "shareDescription", "encrypted"}
      ensures fs[i].0 == "v" <==> i == 0
      ensures fs[i].0 == "app" <==> i == 1
      ensures fs[i].0 == "createdAt" <==> i == 2
      ensures fs[i].0 == "encrypted" <==> i == n - 1
    {
      if 3 <= i < 3 + |lab| {
        assert fs[i] == lab[i - 3];
      } else if 4 + |lab| <= i < n - 1 {
        assert fs[i] == desc[i - 4 - |lab|];
      }
    }
    LookupUnique(fs, 0);
    LookupUnique(fs, 1);
    LookupUnique(fs, 2);
    LookupUnique(fs, n - 1);
    PayloadReadBack(r.encrypted);
  }

  /** `decryptText` reads the envelope as `JSON.stringify` wrote it. */
  lemma PayloadReadBack(e: CryptoBox.EncryptedPayload)
    ensures PayloadOf(Some(PayloadToJson(e))) == Some(e)
  {
    var outer := PayloadToJson(e).fields;
    LookupUnique(outer, 0);
    LookupUnique(outer, 1);
    LookupUnique(outer, 2);
    KdfReadBack(e.kdf);
    CipherReadBack(e.cipher);
  }

  lemma KdfReadBack(k: CryptoBox.KdfParams)
    ensures KdfOf(KdfToJson(k)) == Some(k)
  {
    var fs := KdfToJson(k).fields;
    LookupUnique(fs, 0);
    LookupUnique(fs, 1);
    LookupUnique(fs, 2);
    LookupUnique(fs, 3);
  }

  lemma CipherReadBack(c: CryptoBox.CipherParams)
    ensures CipherOf(CipherToJson(c)) == Some(c)
  {
    var fs := CipherToJson(c).fields;
    LookupUnique(fs, 0);
    LookupUnique(fs, 1);
  }

  /**
   * An envelope holding only the salt, the IV and the ciphertext is read:
   * the names default to "" and the count to `deriveKey`'s default.
   */
  lemma BareEnvelopeReads(salt: string, iv: string, ct: string)
    ensures PayloadOf(Some(BareEnvelope(salt, iv, ct)))
      == Some(CryptoBox.EncryptedPayload(CryptoBox.KdfParams("", "", CryptoBox.DefaultIterations, salt), CryptoBox.CipherParams("", iv), ct))
  {
    var outer := BareEnvelope(salt, iv, ct).fields;
    LookupUnique(outer, 0);
    LookupUnique(outer, 1);
    LookupUnique(outer, 2);
    LookupUnique([("saltB64", JStr(salt))], 0);
    LookupUnique([("ivB64", JStr(iv))], 0);
  }

  /** `{kdf: {saltB64}, cipher: {ivB64}, ciphertextB64}`. */
  function BareEnvelope(salt: string, iv: string, ct: string): Json
  {
    JObj([("kdf", JObj([("saltB64", JStr(salt))])), ("cipher", JObj([("ivB64", JStr(iv))])), ("ciphertextB64", JStr(ct))])
  }

  /** The bindings after position `n` do not bind `k`. */
  lemma {:induction false} LookupOfPrefix(fs: Fields, n: nat, k: string)
    requires n <= |fs|
    requires forall i :: n <= i < |fs| ==> fs[i].0 != k
    ensures Lookup(fs, k) == Lookup(fs[..n], k)
  {
    if |fs| > n {
      assert fs[..|fs| - 1][..n] == fs[..n];
      LookupOfPrefix(fs[..|fs| - 1], n, k);
    } else {
      assert fs[..n] == fs;
    }
  }

  // ---------------------------------------------------------------------------
  // File name
  // ---------------------------------------------------------------------------

  /** `s.replace(/:/g, "-")`. */
  function ReplaceColons(s: string): (r: string)
    ensures |r| == |s|
    ensures forall i :: 0 <= i < |s| ==> r[i] == if s[i] == ':' then '-' else s[i]
  {
    seq(|s|, i requires 0 <= i < |s| => if s[i] == ':' then '-' else s[i])
  }

  /** The characters a regular-expression `.` does not match. */
  predicate IsLineTerminator(c: char)
  {
    c == '\n' || c == '\r' || c == '\U{2028}' || c == '\U{2029}'
  }

  /** Drops the longest prefix of characters that `.` matches. */
  function DropDotRun(s: string): (r: string)
    ensures |r| <= |s| && r == s[|s| - |r|..]
    ensures r == [] || IsLineTerminator(r[0])
  {
    if s == [] || IsLineTerminator(s[0]) then s
    else
      var r := DropDotRun(s[1..]);
      assert s[1..][|s| - 1 - |r|..] == s[|s| - |r|..];
      r
  }

  /**
   * `s.replace(/\..+/, "")`: at the leftmost `.` followed by a character
   * that `.` matches, removes that dot and the longest run of such
   * characters after it; nothing else.
   */
  function StripFraction(s: string): (r: string)
    ensures |r| <= |s|
    ensures forall i :: 0 <= i < |r| ==> r[i] in s
  {
    if s == [] then []
    else if s[0] == '.' && |s| >= 2 && !IsLineTerminator(s[1]) then
      var r := DropDotRun(s[1..]);
      assert forall i :: 0 <= i < |r| ==> r[i] == s[|s| - |r| + i];
      r
    else
      var rest := StripFraction(s[1..]);
      assert forall i :: 0 <= i < |rest| ==> rest[i] in s[1..];
      [s[0]] + rest
  }

  /** The timestamp part of the name. */
  function Stamp(iso: string): string
  {
    StripFraction(ReplaceColons(iso))
  }

  /** `makeFileName()`, with `new Date().toISOString()` given as `iso`. */
  function MakeFileName(iso: string): (name: string)
    ensures name == FilePrefix + Stamp(iso) + FileSuffix
    ensures forall i :: 0 <= i < |Stamp(iso)| ==> Stamp(iso)[i] != ':'
  {
    var rep := ReplaceColons(iso);
    assert forall c :: c in rep ==> c != ':';
    FilePrefix + Stamp(iso) + FileSuffix
  }

  /** Every generated name starts with the prefix the listing filters on, so restore sees it. */
  lemma NameCarriesListingPrefix(iso: string)
    ensures |MakeFileName(iso)| >= |FilePrefix| && MakeFileName(iso)[..|FilePrefix|] == FilePrefix
  {
  }

  /** `Date.prototype.toISOString` with a four-digit year: `YYYY-MM-DDTHH:mm:ss.sssZ`. */
  predicate IsIsoInstant(s: string)
  {
    && |s| == 24
    && s[4] == '-' && s[7] == '-' && s[10] == 'T' && s[13] == ':' && s[16] == ':' && s[19] == '.' && s[23] == 'Z'
    && (forall i :: 0 <= i < 24 && i != 4 && i != 7 && i != 10 && i != 13 && i != 16 && i != 19 && i != 23 ==> '0' <= s[i] <= '9')
  }

  /** For an ISO instant the timestamp is `YYYY-MM-DDTHH-mm-ss`. */
  lemma StampOfIsoInstant(iso: string)
    requires IsIsoInstant(iso)
    ensures Stamp(iso) == iso[..13] + "-" + iso[14..16] + "-" + iso[17..19]
  {
    var rep := ReplaceColons(iso);
    var head := iso[..13] + "-" + iso[14..16] + "-" + iso[17..19];
    assert rep == head + rep[19..];
    StripFractionAfter(head, rep[19..]);
  }

  /** `StripFraction` keeps a dot-free prefix and removes `.sssZ`. */
  lemma {:induction false} StripFractionAfter(head: string, tail: string)
    requires forall i :: 0 <= i < |head| ==> head[i] != '.'
    requires |tail| >= 2 && tail[0] == '.' && forall i :: 1 <= i < |tail| ==> !IsLineTerminator(tail[i])
    ensures StripFraction(head + tail) == head
  {
    if head == [] {
      assert head + tail == tail;
      DropDotRunAll(tail[1..]);
    } else {
      assert (head + tail)[1..] == head[1..] + tail;
      StripFractionAfter(head[1..], tail);
    }
  }

  lemma {:induction false} DropDotRunAll(s: string)
    requires forall i :: 0 <= i < |s| ==> !IsLineTerminator(s[i])
    ensures DropDotRun(s) == []
  {
    if s != [] {
      DropDotRunAll(s[1..]);
    }
  }

  /** The first 19 characters of an ISO instant with the two colons made dashes. */
  lemma StampMasksColons(iso: string)
    requires IsIsoInstant(iso)
    ensures |Stamp(iso)| == 19
    ensures forall i :: 0 <= i < 19 ==> Stamp(iso)[i] == if i == 13 || i == 16 then '-' else iso[i]
  {
    StampOfIsoInstant(iso);
  }

  /**
   * Comparing two strings after the same positions have been overwritten
   * with the same characters gives the same answer as comparing them before.
   */
  lemma {:induction false} LexLeMasked(x: string, y: string, x': string, y': string)
    requires |x| == |y| == |x'| == |y'|
    requires forall i :: 0 <= i < |x| ==> (x'[i] == y'[i] && x[i] == y[i]) || (x'[i] == x[i] && y'[i] == y[i])
    ensures Text.LexLe(x', y') == Text.LexLe(x, y)
  {
    if x != [] {
      LexLeMasked(x[1..], y[1..], x'[1..], y'[1..]);
    }
  }

  /**
   * File names of two backups compare, in code-point order, as their
   * instants truncated to whole seconds do.
   */
  lemma NamesSortLikeInstants(a: string, b: string)
    requires IsIsoInstant(a) && IsIsoInstant(b)
    ensures Text.LexLe(MakeFileName(a), MakeFileName(b)) <==> Text.LexLe(a[..19], b[..19])
  {
    StampsSortLikeInstants(a, b);
    AffixesKeepOrder(Stamp(a), Stamp(b));
  }

  lemma StampsSortLikeInstants(a: string, b: string)
    requires IsIsoInstant(a) && IsIsoInstant(b)
    ensures |Stamp(a)| == |Stamp(b)|
    ensures Text.LexLe(Stamp(a), Stamp(b)) <==> Text.LexLe(a[..19], b[..19])
  {
    StampMasksColons(a);
    StampMasksColons(b);
    LexLeMasked(a[..19], b[..19], Stamp(a), Stamp(b));
  }

  /** The shared prefix and suffix leave the order of equally long stamps unchanged. */
  lemma AffixesKeepOrder(x: string, y: string)
    requires |x| == |y|
    ensures Text.LexLe(FilePrefix + x + FileSuffix, FilePrefix + y + FileSuffix) <==> Text.LexLe(x, y)
  {
    assert FilePrefix + x + FileSuffix == FilePrefix + (x + FileSuffix);
    assert FilePrefix + y + FileSuffix == FilePrefix + (y + FileSuffix);
    Text.LexLeAppend(FilePrefix, FilePrefix, x + FileSuffix, y + FileSuffix);
    Text.LexLeAppend(x, y, FileSuffix, FileSuffix);
    Text.LexLeReflexive(FileSuffix);
    Text.LexLeReflexive(x);
  }
}
