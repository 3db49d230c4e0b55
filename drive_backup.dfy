/**
 * The Google Drive backup hook: it caches the OAuth token, encrypts the
 * recovery mnemonic under a passphrase the user types and uploads it as a
 * version-1 record, and restores it by listing the backups, letting the
 * user pick one (newest first), checking the record and decrypting it.
 *
 * Google's side and the user are a `Drive`: the answers its token popup
 * and `window.prompt` will give, in order, the backups it lists, the
 * parsed content of each file, whether an upload goes through, and the
 * uploads it has received.
 */
module DriveBackup {
  import opened Wrappers
  import Text
  import Sorting
  import opened JsonValue
  import CryptoBox
  import Base64
  import opened BackupFormat

  /** `DriveBackupFile`; the optional `modifiedTime` and `size` play no part. */
  datatype DriveFile = DriveFile(id: string, name: string, createdTime: Option<string>)

  /** A file sent to `createAppDataFile`, with the content as the value `JSON.stringify` wrote. */
  datatype Upload = Upload(token: string, name: string, content: Json)

  /** The errors the hook raises. */
  datatype DriveError =
    | MissingClientId
    | ConnectFailed
    | PassphraseTooShort
    | UploadFailed
    | ListFailed
    | NoBackups
    | DownloadFailed
    | NotJson
    | NullRecord
    | NotW3aMpcBackup
    | DecryptFailed

  datatype BackupOutcome = BackedUp | BackupCancelled

  /** The next answer of a script; an exhausted one answers `None`. */
  function Head<T>(s: seq<Option<T>>): Option<T>
  {
    if s == [] then None else s[0]
  }

  function Tail<T>(s: seq<T>): seq<T>
  {
    if s == [] then [] else s[1..]
  }

  class Drive {
    /** What `getDriveAccessToken` gives, call by call; `None` where it fails. */
    var tokenReplies: seq<Option<string>>
    /** What `window.prompt` returns, call by call; `None` is `null` (cancel). */
    var answers: seq<Option<string>>
    /** `listAppDataBackups`: the backups found, or `None` where the request fails. */
    const listing: Option<seq<DriveFile>>
    /**
     * `downloadFileContent` followed by `JSON.parse`: a missing id fails to
     * download, `None` is content that does not parse.
     */
    const contents: map<string, Option<Json>>
    const uploadOk: bool
    var uploads: seq<Upload>

    constructor(tokenReplies: seq<Option<string>>, answers: seq<Option<string>>,
                listing: Option<seq<DriveFile>>, contents: map<string, Option<Json>>, uploadOk: bool)
      ensures this.tokenReplies == tokenReplies && this.answers == answers
      ensures this.listing == listing && this.contents == contents && this.uploadOk == uploadOk
      ensures uploads == []
    {
      this.tokenReplies, this.answers := tokenReplies, answers;
      this.listing, this.contents, this.uploadOk := listing, contents, uploadOk;
      uploads := [];
    }

    method RequestToken() returns (t: Option<string>)
      modifies this
      ensures t == Head(old(tokenReplies)) && tokenReplies == Tail(old(tokenReplies))
      ensures answers == old(answers) && uploads == old(uploads)
    {
      t := Head(tokenReplies);
      tokenReplies := Tail(tokenReplies);
    }

    method Prompt() returns (a: Option<string>)
      modifies this
      ensures a == Head(old(answers)) && answers == Tail(old(answers))
      ensures tokenReplies == old(tokenReplies) && uploads == old(uploads)
    {
      a := Head(answers);
      answers := Tail(answers);
    }

    method CreateFile(token: string, name: string, content: Json) returns (ok: bool)
      modifies this
      ensures ok == uploadOk
      ensures uploads == old(uploads) + (if ok then [Upload(token, name, content)] else [])
      ensures tokenReplies == old(tokenReplies) && answers == old(answers)
    {
      ok := uploadOk;
      if ok {
        uploads := uploads + [Upload(token, name, content)];
      }
    }
  }

  // ---------------------------------------------------------------------------
  // The token
  // ---------------------------------------------------------------------------

  /** `connectDrive()`: no client id throws before the popup; otherwise the popup's answer. */
  function Connected(clientId: string, replies: seq<Option<string>>): (r: Result<string, DriveError>)
  {
    if clientId == "" then Failure(MissingClientId)
    else match Head(replies)
      case None => Failure(ConnectFailed)
      case Some(t) => Success(t)
  }

  /** `driveToken ?? await connectDrive()`. */
  function TokenOutcome(driveToken: Option<string>, clientId: string, replies: seq<Option<string>>): (r: Result<string, DriveError>)
    ensures driveToken.Some? ==> r == Success(driveToken.value)
  {
    if driveToken.Some? then Success(driveToken.value) else Connected(clientId, replies)
  }

  /** The popup answers left once the token is there: one is used only when a popup opens. */
  function RepliesAfter(driveToken: Option<string>, clientId: string, replies: seq<Option<string>>): (rest: seq<Option<string>>)
    ensures driveToken.Some? ==> rest == replies
  {
    if driveToken.Some? || clientId == "" then replies else Tail(replies)
  }

  // ---------------------------------------------------------------------------
  // Backup
  // ---------------------------------------------------------------------------

  /** The record `backupRecoveryToDrive` builds around the mnemonic's envelope. */
  function RecordFor(p: CryptoBox.Primitives, pass: string, mnemonic: string, userLabel: Option<string>,
                     createdAt: string, salt: seq<CryptoBox.byte>, iv: seq<CryptoBox.byte>): (r: W3aMpcBackupV1)
    requires |salt| == CryptoBox.SaltLength && |iv| == CryptoBox.IvLength
    ensures r.shareType == Recovery && r.shareDescription == Some("seedPhrase")
    ensures r.userLabel == userLabel && r.createdAt == createdAt
  {
    BackupRecord(FormatVersion, AppTag, createdAt, userLabel, Recovery, Some("seedPhrase"),
      CryptoBox.EncryptText(p, pass, mnemonic, salt, iv))
  }

  /** `!pass`: `null` or the empty string. */
  predicate Cancels(pass: Option<string>)
  {
    pass.None? || pass.value == ""
  }

  // ---------------------------------------------------------------------------
  // Restore: ordering and selection
  // ---------------------------------------------------------------------------

  function CreatedKey(f: DriveFile): string
  {
    f.createdTime.GetOr("")
  }

  /** `(b.createdTime ?? "").localeCompare(a.createdTime ?? "")` does not put `b` first. */
  predicate NewerFirst(a: DriveFile, b: DriveFile)
  {
    Text.LexLe(CreatedKey(b), CreatedKey(a))
  }

  lemma NewerFirstIsPreorder()
    ensures Sorting.TotalPreorder(NewerFirst)
  {
    forall a, b
      ensures NewerFirst(a, b) || NewerFirst(b, a)
    {
      Text.LexLeTotal(CreatedKey(a), CreatedKey(b));
    }
    forall a, b, c | NewerFirst(a, b) && NewerFirst(b, c)
      ensures NewerFirst(a, c)
    {
      Text.LexLeTransitive(CreatedKey(c), CreatedKey(b), CreatedKey(a));
    }
  }

  /** `[...files].sort(byCreatedTimeDescending)`. */
  function SortNewestFirst(files: seq<DriveFile>): (sorted: seq<DriveFile>)
    ensures multiset(sorted) == multiset(files)
  {
    Sorting.SortBy(files, NewerFirst)
  }

  /** The sorted copy lists the same files, newest `createdTime` first. */
  lemma SortNewestFirstOrdered(files: seq<DriveFile>)
    ensures |SortNewestFirst(files)| == |files|
    ensures forall i, j :: 0 <= i < j < |files| ==>
      Text.LexLe(CreatedKey(SortNewestFirst(files)[j]), CreatedKey(SortNewestFirst(files)[i]))
  {
    assert |multiset(SortNewestFirst(files))| == |multiset(files)|;
    NewerFirstIsPreorder();
    Sorting.SortBySorted(files, NewerFirst);
  }

  /**
   * The file picked among `n >= 2` from the answer to the selection
   * prompt: `None` when cancelled; a blank answer, a non-number or an
   * out-of-range number picks the newest (index 0); otherwise the 1-based
   * number typed.
   */
  function Select(n: nat, choice: Option<string>): (pick: Option<nat>)
    ensures choice.None? <==> pick.None?
    ensures pick.Some? ==> pick.value < n || (n == 0 && pick.value == 0)
    ensures choice.Some? && Text.Trim(choice.value) == "" ==> pick == Some(0)
    ensures choice.Some? && Text.ParseInt(Text.Trim(choice.value)).Some? ==>
      var k := Text.ParseInt(Text.Trim(choice.value)).value;
      pick == Some(if 1 <= k <= n then k - 1 else 0)
    ensures choice.Some? && Text.ParseInt(Text.Trim(choice.value)).None? ==> pick == Some(0)
  {
    match choice
    case None => None
    case Some(c) =>
      var t := Text.Trim(c);
      if t == [] then Some(0)
      else match Text.ParseInt(t)
        case None => Some(0)
        case Some(k) => if 0 <= k - 1 < n then Some(k - 1) else Some(0)
  }

  /** Typing the 1-based number of a listed file picks that file. */
  lemma SelectTypedNumber(n: nat, k: nat)
    requires 1 <= k <= n
    ensures Select(n, Some(Text.NatToString(k, 10))) == Some(k - 1)
  {
    var s := Text.NatToString(k, 10);
    DecimalIsTrimmed(k);
    Text.ParseIntOfDecimal(k);
    assert Text.ParseInt(Text.Trim(s)) == Some(k);
  }

  /** The decimal rendering of a number has no surrounding whitespace to trim. */
  lemma DecimalIsTrimmed(k: nat)
    ensures Text.Trim(Text.NatToString(k, 10)) == Text.NatToString(k, 10)
  {
    var s := Text.NatToString(k, 10);
    forall i | 0 <= i < |s|
      ensures !Text.IsJsSpace(s[i])
    {
      assert Text.DigitOf(s[i], 10).Some?;
    }
    assert Text.TrimStart(s) == s;
    assert Text.TrimEnd(s) == s;
  }

  // ---------------------------------------------------------------------------
  // Restore: the record
  // ---------------------------------------------------------------------------

  /**
   * `blob.v !== 1 || blob.app !== "w3a-mpc"`: reading `v` of `null` throws;
   * any other value without both properties is rejected.
   */
  function CheckRecord(blob: Json): (bad: Option<DriveError>)
    ensures bad.None? <==> Get(blob, "v") == Some(JNum(FormatVersion)) && Get(blob, "app") == Some(JStr(AppTag))
    ensures bad.Some? ==> bad.value == NullRecord || bad.value == NotW3aMpcBackup
  {
    if blob == JNull then Some(NullRecord)
    else if Get(blob, "v") != Some(JNum(FormatVersion)) || Get(blob, "app") != Some(JStr(AppTag)) then Some(NotW3aMpcBackup)
    else None
  }

  /** `decryptText(pass, blob.encrypted)` inside its `try`: every failure becomes the one fixed error. */
  function Unseal(p: CryptoBox.Primitives, blob: Json, pass: string): (r: Result<string, DriveError>)
    ensures r.Failure? ==> r.error == DecryptFailed
    ensures r.Success? <==> (PayloadOf(Get(blob, "encrypted")).Some?
      && CryptoBox.DecryptText(p, pass, PayloadOf(Get(blob, "encrypted")).value).Success?)
  {
    match PayloadOf(Get(blob, "encrypted"))
    case None => Failure(DecryptFailed)
    case Some(e) =>
      match CryptoBox.DecryptText(p, pass, e)
      case Failure(_) => Failure(DecryptFailed)
      case Success(m) => Success(m)
  }

  /** What a restore returned (`None` is `null`) and how many prompts it showed. */
  datatype RestoreRun = RestoreRun(result: Result<Option<string>, DriveError>, prompts: nat)

  /** The answers left after `n` prompts. */
  function Drop<T>(s: seq<T>, n: nat): seq<T>
  {
    if n >= |s| then [] else s[n..]
  }

  lemma DropDrop<T>(s: seq<T>, m: nat, n: nat)
    ensures Drop(Drop(s, m), n) == Drop(s, m + n)
  {
    if m < |s| && n < |s| - m {
      assert Drop(s, m) == s[m..];
      assert s[m..][n..] == s[m + n..];
    }
  }

  /**
   * The part of a restore after a file is picked, `asked` prompts in:
   * download, `JSON.parse`, the format check, the passphrase prompt (its
   * answer is `pass`) and decryption.
   */
  function RestoreFile(p: CryptoBox.Primitives, file: DriveFile, contents: map<string, Option<Json>>,
                       pass: Option<string>, asked: nat): (run: RestoreRun)
    ensures run.prompts == asked || run.prompts == asked + 1
    ensures run.prompts == asked + 1 <==>
      file.id in contents && contents[file.id].Some? && CheckRecord(contents[file.id].value).None?
    ensures run.result.Success? && run.result.value.Some? ==>
      && run.prompts == asked + 1 && !Cancels(pass)
      && Unseal(p, contents[file.id].value, pass.value) == Success(run.result.value.value)
    ensures run.result.Success? && run.result.value.None? ==> run.prompts == asked + 1 && Cancels(pass)
    ensures run.result.Failure? && (run.result.error == NullRecord || run.result.error == NotW3aMpcBackup) ==>
      run.prompts == asked
  {
    if file.id !in contents then RestoreRun(Failure(DownloadFailed), asked)
    else if contents[file.id].None? then RestoreRun(Failure(NotJson), asked)
    else
      var blob := contents[file.id].value;
      var bad := CheckRecord(blob);
      if bad.Some? then RestoreRun(Failure(bad.value), asked)
      else if Cancels(pass) then RestoreRun(Success(None), asked + 1)
      else match Unseal(p, blob, pass.value)
        case Failure(e) => RestoreRun(Failure(e), asked + 1)
        case Success(m) => RestoreRun(Success(Some(m)), asked + 1)
  }

  /**
   * `restoreRecoveryFromDrive()` once the token is known, as a function of
   * what Drive lists and holds and of the user's answers: with several
   * backups the first answer picks one, the next is the passphrase.
   */
  function RestoreFlow(p: CryptoBox.Primitives, tok: Result<string, DriveError>, listing: Option<seq<DriveFile>>,
                       answers: seq<Option<string>>, contents: map<string, Option<Json>>): (run: RestoreRun)
    ensures run.prompts <= 2
    ensures tok.Failure? ==> run == RestoreRun(Failure(tok.error), 0)
    ensures tok.Success? && listing.None? ==> run == RestoreRun(Failure(ListFailed), 0)
    ensures tok.Success? && listing == Some([]) ==> run == RestoreRun(Failure(NoBackups), 0)
  {
    if tok.Failure? then RestoreRun(Failure(tok.error), 0)
    else if listing.None? then RestoreRun(Failure(ListFailed), 0)
    else if listing.value == [] then RestoreRun(Failure(NoBackups), 0)
    else
      var sorted := SortNewestFirst(listing.value);
      var asked: nat := if |listing.value| > 1 then 1 else 0;
      var pick := if |listing.value| > 1 then Select(|listing.value|, Head(answers)) else Some(0);
      if pick.None? then RestoreRun(Success(None), asked)
      else
        assert |sorted| == |listing.value| by {
          assert |multiset(sorted)| == |multiset(listing.value)|;
        }
        RestoreFile(p, sorted[pick.value], contents, Head(Drop(answers, asked)), asked)
  }

  /**
   * A restored mnemonic is what one of the listed backups decrypts to
   * under the passphrase typed, and that backup passed the format check.
   */
  lemma RestoredComesFromListedBackup(p: CryptoBox.Primitives, tok: Result<string, DriveError>, listing: Option<seq<DriveFile>>,
                                      answers: seq<Option<string>>, contents: map<string, Option<Json>>)
    requires var run := RestoreFlow(p, tok, listing, answers, contents); run.result.Success? && run.result.value.Some?
    ensures tok.Success? && listing.Some?
    ensures exists f, pass :: (f in listing.value && f.id in contents && contents[f.id].Some?
      && CheckRecord(contents[f.id].value).None?
      && Unseal(p, contents[f.id].value, pass) == Success(RestoreFlow(p, tok, listing, answers, contents).result.value.value))
  {
    var sorted := SortNewestFirst(listing.value);
    assert |sorted| == |listing.value| by {
      assert |multiset(sorted)| == |multiset(listing.value)|;
    }
    var asked: nat := if |listing.value| > 1 then 1 else 0;
    var pick := if |listing.value| > 1 then Select(|listing.value|, Head(answers)) else Some(0);
    var f := sorted[pick.value];
    assert f in multiset(sorted);
    assert f in listing.value;
    var run := RestoreFile(p, f, contents, Head(Drop(answers, asked)), asked);
    assert Unseal(p, contents[f.id].value, Head(Drop(answers, asked)).value) == Success(run.result.value.value);
  }

  /**
   * A backup that fails the format check is rejected before the
   * passphrase is asked for: only the selection prompt, if any, was shown.
   */
  lemma RejectedBeforePassphrase(p: CryptoBox.Primitives, driveToken: Option<string>, clientId: string,
                                 replies: seq<Option<string>>, listing: Option<seq<DriveFile>>,
                                 answers: seq<Option<string>>, contents: map<string, Option<Json>>)
    requires var run := RestoreFlow(p, TokenOutcome(driveToken, clientId, replies), listing, answers, contents);
      run.result.Failure? && (run.result.error == NullRecord || run.result.error == NotW3aMpcBackup)
    ensures TokenOutcome(driveToken, clientId, replies).Success? && listing.Some?
    ensures RestoreFlow(p, TokenOutcome(driveToken, clientId, replies), listing, answers, contents).prompts
      == if |listing.value| > 1 then 1 else 0
  {
    var tok := TokenOutcome(driveToken, clientId, replies);
    var run := RestoreFlow(p, tok, listing, answers, contents);
    var sorted := SortNewestFirst(listing.value);
    assert |sorted| == |listing.value| by {
      assert |multiset(sorted)| == |multiset(listing.value)|;
    }
    var asked: nat := if |listing.value| > 1 then 1 else 0;
    var pick := if |listing.value| > 1 then Select(|listing.value|, Head(answers)) else Some(0);
    assert pick.Some?;
    assert run == RestoreFile(p, sorted[pick.value], contents, Head(Drop(answers, asked)), asked);
  }

  /** A single backup is restored without the selection prompt. */
  lemma SingleBackupNeedsNoChoice(p: CryptoBox.Primitives, tok: string, f: DriveFile,
                                  answers: seq<Option<string>>, contents: map<string, Option<Json>>)
    ensures RestoreFlow(p, Success(tok), Some([f]), answers, contents)
      == RestoreFile(p, f, contents, Head(answers), 0)
  {
    SortSingleton(f);
  }

  lemma SortSingleton(f: DriveFile)
    ensures SortNewestFirst([f]) == [f]
  {
    var s := SortNewestFirst([f]);
    assert |multiset(s)| == 1;
    assert s[0] in multiset(s);
  }

  /**
   * Restoring the only backup with the passphrase it was made with gives
   * back the mnemonic that was backed up.
   */
  lemma BackupThenRestore(p: CryptoBox.Primitives, tok: string, f: DriveFile, pass: string, mnemonic: string,
                          userLabel: Option<string>, createdAt: string, salt: seq<CryptoBox.byte>, iv: seq<CryptoBox.byte>)
    requires CryptoBox.Sound(p)
    requires |salt| == CryptoBox.SaltLength && |iv| == CryptoBox.IvLength
    requires pass != ""
    ensures
      var blob := ToJson(RecordFor(p, pass, mnemonic, userLabel, createdAt, salt, iv));
      RestoreFlow(p, Success(tok), Some([f]), [Some(pass)], map[f.id := Some(blob)])
        == RestoreRun(Success(Some(mnemonic)), 1)
  {
    var blob := ToJson(RecordFor(p, pass, mnemonic, userLabel, createdAt, salt, iv));
    UnsealsOwnRecord(p, pass, mnemonic, userLabel, createdAt, salt, iv);
    SingleBackupNeedsNoChoice(p, tok, f, [Some(pass)], map[f.id := Some(blob)]);
    assert Head([Some(pass)]) == Some(pass);
  }

  /** A stored record passes the format check and unseals, under its passphrase, to the mnemonic it was made from. */
  lemma UnsealsOwnRecord(p: CryptoBox.Primitives, pass: string, mnemonic: string, userLabel: Option<string>,
                         createdAt: string, salt: seq<CryptoBox.byte>, iv: seq<CryptoBox.byte>)
    requires CryptoBox.Sound(p)
    requires |salt| == CryptoBox.SaltLength && |iv| == CryptoBox.IvLength
    ensures var blob := ToJson(RecordFor(p, pass, mnemonic, userLabel, createdAt, salt, iv));
      CheckRecord(blob).None? && Unseal(p, blob, pass) == Success(mnemonic)
  {
    var r := RecordFor(p, pass, mnemonic, userLabel, createdAt, salt, iv);
    ReadBack(r);
    CryptoBox.DecryptEncrypt(p, pass, mnemonic, salt, iv);
  }

  /**
   * A record whose envelope keeps only the salt, the IV and the ciphertext
   * still unseals: the count falls back to `deriveKey`'s default, the one
   * `encryptText` seals under.
   */
  lemma BareEnvelopeUnseals(p: CryptoBox.Primitives, pass: string, mnemonic: string, salt: seq<CryptoBox.byte>, iv: seq<CryptoBox.byte>)
    requires CryptoBox.Sound(p)
    ensures
      var key := p.pbkdf2(p.utf8Encode(pass), salt, CryptoBox.DefaultIterations);
      var env := BareEnvelope(Base64.Encode(salt), Base64.Encode(iv), Base64.Encode(p.seal(key, iv, p.utf8Encode(mnemonic))));
      var blob := JObj([("v", JNum(FormatVersion)), ("app", JStr(AppTag)), ("encrypted", env)]);
      CheckRecord(blob).None? && Unseal(p, blob, pass) == Success(mnemonic)
  {
    var key := p.pbkdf2(p.utf8Encode(pass), salt, CryptoBox.DefaultIterations);
    var ct := Base64.Encode(p.seal(key, iv, p.utf8Encode(mnemonic)));
    var env := BareEnvelope(Base64.Encode(salt), Base64.Encode(iv), ct);
    var fs := [("v", JNum(FormatVersion)), ("app", JStr(AppTag)), ("encrypted", env)];
    LookupUnique(fs, 0);
    LookupUnique(fs, 1);
    LookupUnique(fs, 2);
    BareEnvelopeReads(Base64.Encode(salt), Base64.Encode(iv), ct);
    var full := CryptoBox.EncryptedPayload(CryptoBox.KdfParams(CryptoBox.KdfName, CryptoBox.HashName, CryptoBox.DefaultIterations, Base64.Encode(salt)),
      CryptoBox.CipherParams(CryptoBox.CipherName, Base64.Encode(iv)), ct);
    CryptoBox.DecryptWithStoredIterations(p, pass, mnemonic, salt, iv, CryptoBox.DefaultIterations);
    CryptoBox.DecryptIgnoresNames(p, pass, full, "", "", "");
  }

  /** A wrong passphrase, or any other decryption failure, restores nothing and reports the one fixed error. */
  lemma WrongPassphraseRestoresNothing(p: CryptoBox.Primitives, tok: string, f: DriveFile, blob: Json, pass: string)
    requires CheckRecord(blob).None? && pass != ""
    requires PayloadOf(Get(blob, "encrypted")).None?
      || CryptoBox.DecryptText(p, pass, PayloadOf(Get(blob, "encrypted")).value).Failure?
    ensures RestoreFlow(p, Success(tok), Some([f]), [Some(pass)], map[f.id := Some(blob)])
      == RestoreRun(Failure(DecryptFailed), 1)
  {
    SingleBackupNeedsNoChoice(p, tok, f, [Some(pass)], map[f.id := Some(blob)]);
  }

  // ---------------------------------------------------------------------------
  // The hook
  // ---------------------------------------------------------------------------

  class BackupHook {
    /** `VITE_GOOGLE_OAUTH_CLIENT_ID`; "" when unset. */
    const clientId: string
    const drive: Drive
    const crypto: CryptoBox.Primitives
    var driveToken: Option<string>
    var isConnecting: bool
    var isBackingUp: bool
    var isRestoring: bool

    constructor(clientId: string, drive: Drive, crypto: CryptoBox.Primitives)
      ensures this.clientId == clientId && this.drive == drive && this.crypto == crypto
      ensures driveToken == None && !isConnecting && !isBackingUp && !isRestoring
    {
      this.clientId, this.drive, this.crypto := clientId, drive, crypto;
      driveToken := None;
      isConnecting, isBackingUp, isRestoring := false, false, false;
    }

    /** `connectDrive()`: the token popup; a token it returns is kept. */
    method ConnectDrive() returns (r: Result<string, DriveError>)
      modifies this, drive
      ensures r == Connected(clientId, old(drive.tokenReplies))
      ensures drive.tokenReplies == (if clientId == "" then old(drive.tokenReplies) else Tail(old(drive.tokenReplies)))
      ensures driveToken == if r.Success? then Some(r.value) else old(driveToken)
      ensures isConnecting == (if clientId == "" then old(isConnecting) else false)
      ensures isBackingUp == old(isBackingUp) && isRestoring == old(isRestoring)
      ensures drive.answers == old(drive.answers) && drive.uploads == old(drive.uploads)
    {
      if clientId == "" {
        return Failure(MissingClientId);
      }
      isConnecting := true;
      var t := drive.RequestToken();
      if t.None? {
        r := Failure(ConnectFailed);
      } else {
        driveToken := t;
        r := Success(t.value);
      }
      isConnecting := false;
    }

    /** `driveToken ?? await connectDrive()`: the cached token is reused without a popup. */
    method ObtainToken() returns (r: Result<string, DriveError>)
      modifies this, drive
      ensures r == TokenOutcome(old(driveToken), clientId, old(drive.tokenReplies))
      ensures drive.tokenReplies == RepliesAfter(old(driveToken), clientId, old(drive.tokenReplies))
      ensures driveToken == if r.Success? then Some(r.value) else old(driveToken)
      ensures isConnecting == (if old(driveToken).None? && clientId != "" then false else old(isConnecting))
      ensures isBackingUp == old(isBackingUp) && isRestoring == old(isRestoring)
      ensures drive.answers == old(drive.answers) && drive.uploads == old(drive.uploads)
    {
      if driveToken.Some? {
        return Success(driveToken.value);
      }
      r := ConnectDrive();
    }

    /**
     * `backupRecoveryToDrive({ recoveryMnemonic, label })`, with the two
     * `new Date()` readings (`createdAt`, `nameInstant`) and the random
     * salt and IV given.
     */
    method BackupRecoveryToDrive(mnemonic: string, userLabel: Option<string>, createdAt: string, nameInstant: string,
                                 salt: seq<CryptoBox.byte>, iv: seq<CryptoBox.byte>)
      returns (r: Result<BackupOutcome, DriveError>)
      requires |salt| == CryptoBox.SaltLength && |iv| == CryptoBox.IvLength
      modifies this, drive
      ensures !isBackingUp && isRestoring == old(isRestoring)
      ensures driveToken == (var tok := TokenOutcome(old(driveToken), clientId, old(drive.tokenReplies));
        if tok.Success? then Some(tok.value) else old(driveToken))
      ensures isConnecting == (if old(driveToken).None? && clientId != "" then false else old(isConnecting))
      ensures drive.tokenReplies == RepliesAfter(old(driveToken), clientId, old(drive.tokenReplies))
      ensures var tok := TokenOutcome(old(driveToken), clientId, old(drive.tokenReplies));
        && (tok.Failure? ==> r == Failure(tok.error) && drive.answers == old(drive.answers) && drive.uploads == old(drive.uploads))
        && (tok.Success? ==> driveToken == Some(tok.value) && drive.answers == Tail(old(drive.answers)))
      ensures var tok := TokenOutcome(old(driveToken), clientId, old(drive.tokenReplies));
        var pass := Head(old(drive.answers));
        tok.Success? && Cancels(pass) ==> r == Success(BackupCancelled) && drive.uploads == old(drive.uploads)
      ensures var tok := TokenOutcome(old(driveToken), clientId, old(drive.tokenReplies));
        var pass := Head(old(drive.answers));
        tok.Success? && !Cancels(pass) && Text.Utf16Length(pass.value) < 8 ==>
          r == Failure(PassphraseTooShort) && drive.uploads == old(drive.uploads)
      ensures var tok := TokenOutcome(old(driveToken), clientId, old(drive.tokenReplies));
        var pass := Head(old(drive.answers));
        tok.Success? && !Cancels(pass) && Text.Utf16Length(pass.value) >= 8 ==>
          && r == (if drive.uploadOk then Success(BackedUp) else Failure(UploadFailed))
          && drive.uploads == old(drive.uploads) + (if drive.uploadOk then
               [Upload(tok.value, MakeFileName(nameInstant), ToJson(RecordFor(crypto, pass.value, mnemonic, userLabel, createdAt, salt, iv)))]
             else [])
    {
      isBackingUp := true;
      var token := ObtainToken();
      if token.Failure? {
        isBackingUp := false;
        return Failure(token.error);
      }
      r := SealAndUpload(token.value, mnemonic, userLabel, createdAt, nameInstant, salt, iv);
      isBackingUp := false;
    }

    /** The backup once a token is held: the passphrase prompt, its checks, the sealing and the upload. */
    method SealAndUpload(token: string, mnemonic: string, userLabel: Option<string>, createdAt: string, nameInstant: string,
                         salt: seq<CryptoBox.byte>, iv: seq<CryptoBox.byte>)
      returns (r: Result<BackupOutcome, DriveError>)
      requires |salt| == CryptoBox.SaltLength && |iv| == CryptoBox.IvLength
      modifies drive
      ensures drive.tokenReplies == old(drive.tokenReplies) && drive.answers == Tail(old(drive.answers))
      ensures var pass := Head(old(drive.answers));
        Cancels(pass) ==> r == Success(BackupCancelled) && drive.uploads == old(drive.uploads)
      ensures var pass := Head(old(drive.answers));
        !Cancels(pass) && Text.Utf16Length(pass.value) < 8 ==>
          r == Failure(PassphraseTooShort) && drive.uploads == old(drive.uploads)
      ensures var pass := Head(old(drive.answers));
        !Cancels(pass) && Text.Utf16Length(pass.value) >= 8 ==>
          && r == (if drive.uploadOk then Success(BackedUp) else Failure(UploadFailed))
          && drive.uploads == old(drive.uploads) + (if drive.uploadOk then
               [Upload(token, MakeFileName(nameInstant), ToJson(RecordFor(crypto, pass.value, mnemonic, userLabel, createdAt, salt, iv)))]
             else [])
    {
      var pass := drive.Prompt();
      if pass.None? || pass.value == "" {
        return Success(BackupCancelled);
      }
      if Text.Utf16Length(pass.value) < 8 {
        return Failure(PassphraseTooShort);
      }
      var encrypted := CryptoBox.EncryptText(crypto, pass.value, mnemonic, salt, iv);
      var blob := BackupRecord(FormatVersion, AppTag, createdAt, userLabel, Recovery, Some("seedPhrase"), encrypted);
      var ok := drive.CreateFile(token, MakeFileName(nameInstant), ToJson(blob));
      r := if ok then Success(BackedUp) else Failure(UploadFailed);
    }

    /** `restoreRecoveryFromDrive()`: `Success(None)` is the `null` of a cancelled restore. */
    method RestoreRecoveryFromDrive() returns (r: Result<Option<string>, DriveError>)
      modifies this, drive
      ensures !isRestoring && isBackingUp == old(isBackingUp)
      ensures driveToken == (var tok := TokenOutcome(old(driveToken), clientId, old(drive.tokenReplies));
        if tok.Success? then Some(tok.value) else old(driveToken))
      ensures isConnecting == (if old(driveToken).None? && clientId != "" then false else old(isConnecting))
      ensures drive.tokenReplies == RepliesAfter(old(driveToken), clientId, old(drive.tokenReplies))
      ensures drive.uploads == old(drive.uploads)
      ensures var tok := TokenOutcome(old(driveToken), clientId, old(drive.tokenReplies));
        var run := RestoreFlow(crypto, tok, drive.listing, old(drive.answers), drive.contents);
        && r == run.result
        && drive.answers == Drop(old(drive.answers), run.prompts)
        && (tok.Success? ==> driveToken == Some(tok.value))
    {
      isRestoring := true;
      var token := ObtainToken();
      if token.Failure? {
        isRestoring := false;
        return Failure(token.error);
      }
      r := RestoreListed(token.value);
      isRestoring := false;
    }

    /** The restore once a token is held: the listing, the pick, and the chosen file. */
    method RestoreListed(token: string) returns (r: Result<Option<string>, DriveError>)
      modifies drive
      ensures var run := RestoreFlow(crypto, Success(token), drive.listing, old(drive.answers), drive.contents);
        && r == run.result
        && drive.answers == Drop(old(drive.answers), run.prompts)
      ensures drive.tokenReplies == old(drive.tokenReplies) && drive.uploads == old(drive.uploads)
    {
      if drive.listing.None? {
        return Failure(ListFailed);
      }
      var files := drive.listing.value;
      if |files| == 0 {
        return Failure(NoBackups);
      }
      var sorted := SortNewestFirst(files);
      assert |sorted| == |files| by {
        assert |multiset(sorted)| == |multiset(files)|;
      }
      var index: nat := 0;
      var asked: nat := 0;
      if |files| > 1 {
        var choice := drive.Prompt();
        asked := 1;
        var pick := Select(|files|, choice);
        if pick.None? {
          return Success(None);
        }
        index := pick.value;
      }
      assert drive.answers == Drop(old(drive.answers), asked);
      ghost var run := RestoreFile(crypto, sorted[index], drive.contents, Head(drive.answers), asked);
      r := RestoreChosen(sorted[index], asked);
      DropDrop(old(drive.answers), asked, run.prompts - asked);
    }

    /** The restore once the file is picked, `asked` prompts in. */
    method RestoreChosen(file: DriveFile, asked: nat) returns (r: Result<Option<string>, DriveError>)
      modifies drive
      ensures var run := RestoreFile(crypto, file, drive.contents, Head(old(drive.answers)), asked);
        && r == run.result
        && drive.answers == Drop(old(drive.answers), run.prompts - asked)
      ensures drive.tokenReplies == old(drive.tokenReplies) && drive.uploads == old(drive.uploads)
    {
      if file.id !in drive.contents {
        return Failure(DownloadFailed);
      }
      var parsed := drive.contents[file.id];
      if parsed.None? {
        return Failure(NotJson);
      }
      var blob := parsed.value;
      var bad := CheckRecord(blob);
      if bad.Some? {
        return Failure(bad.value);
      }
      var pass := drive.Prompt();
      if pass.None? || pass.value == "" {
        return Success(None);
      }
      var mnemonic := Unseal(crypto, blob, pass.value);
      r := if mnemonic.Success? then Success(Some(mnemonic.value)) else Failure(mnemonic.error);
    }

    /** `listBackupFiles()`: the listing as Drive returns it. */
    method ListBackupFiles() returns (r: Result<seq<DriveFile>, DriveError>)
      modifies this, drive
      ensures var tok := TokenOutcome(old(driveToken), clientId, old(drive.tokenReplies));
        r == if tok.Failure? then Failure(tok.error)
             else if drive.listing.None? then Failure(ListFailed)
             else Success(drive.listing.value)
      ensures drive.tokenReplies == RepliesAfter(old(driveToken), clientId, old(drive.tokenReplies))
      ensures var tok := TokenOutcome(old(driveToken), clientId, old(drive.tokenReplies));
        driveToken == if tok.Success? then Some(tok.value) else old(driveToken)
      ensures isConnecting == (if old(driveToken).None? && clientId != "" then false else old(isConnecting))
      ensures drive.answers == old(drive.answers) && drive.uploads == old(drive.uploads)
      ensures isBackingUp == old(isBackingUp) && isRestoring == old(isRestoring)
    {
      var token := ObtainToken();
      if token.Failure? {
        return Failure(token.error);
      }
      if drive.listing.None? {
        return Failure(ListFailed);
      }
      r := Success(drive.listing.value);
    }
  }
}
