# w3a-mpc core, modelled in Dafny

w3a-mpc is a browser wallet built on Web3Auth's MPC core kit. The key is
split into factors; a recovery factor is a BIP-39 mnemonic, which the user
can back up to the Google Drive `appDataFolder` under a passphrase. This
project models the parts of the application that carry its logic:

- **Factor management** (`src/hooks/useFactorManager.ts`, `factor_manager.dfy`).
  `getValidFactors` filters and parses the share descriptions. The hook
  methods `enableMFA`, `createMnemonicFactor` and `deleteFactor`
  re-synchronise with `init()`. They retry exactly once on a metadata
  conflict (error code 1401), only commit while logged in, and create a
  seed-phrase factor only when none exists. `deleteFactor` deletes the
  first seed-phrase factor found. `getKeyDetails` rebuilds the filtered
  `shareDescriptions` map. The core-kit instance is a scripted stand-in
  (`core_kit.dfy`) that records every call. The hook methods are proved
  against predicates over that call log.
- **The passphrase envelope** (`src/drive/cryptoBox.ts`, `crypto_box.dfy`, `base64.dfy`).
  PBKDF2-SHA-256 with 310000 iterations derives the key, AES-GCM seals the
  data, and salt, IV and ciphertext are stored as base64. Decryption takes
  the salt, IV and iteration count from the envelope. It round-trips under
  the correctness of UTF-8 and AES-GCM, and it fails closed.
- **The backup record and file name** (`src/drive/backupFormat.ts`, `backup_format.dfy`).
  The record is version 1 with the `w3a-mpc` tag. The file name
  `w3a-mpc-backup-<ISO instant without colons or fraction>.json` sorts the
  same way the instants do.
- **Drive backup and restore** (`src/hooks/useDriveBackup.ts`, `drive_backup.dfy`).
  The hook caches the token. Backup prompts for a passphrase, refuses
  short ones, encrypts and uploads. Restore sorts backups newest first,
  reads the selection prompt, checks the format, prompts for the
  passphrase and decrypts. Google's side and the user's answers form a
  scripted `Drive`.
- **The key-details panel** (`src/components/factor/KeyDetailsDisplay.tsx`, `key_details_display.dfy`).
  It covers `formatPubKey`, `parseShares` (collect, then sort by
  `tssShareIndex`), `getFactorTypeInfo` (classification by lower-cased
  `module`) and the shortened `pub`.
- **The session status mirror** (`src/hooks/useWeb3Auth.ts`, `web3auth_session.dfy`).
  Initialisation is guarded, the 300 ms polling updater is de-duplicated,
  and `logout` and `getUserInfo` do nothing without an instance.

The remaining modules are supporting definitions:

- `wrappers.dfy` has `Option`, `Result` and `Outcome`.
- `text.dfy` covers code-point string order (`localeCompare` as modelled),
  `trim`, `toLowerCase` on ASCII, `parseInt`, `Number#toString(radix)`,
  `slice` and UTF-16 length.
- `json.dfy` models parsed JSON values, property access, truthiness and
  object spread.
- `sorting.dfy` is a specified insertion sort that stands in for
  `Array.prototype.sort`.

Foreign code is a parameter of the model, never an assumption about it.
This covers `JSON.parse`, `JSON.stringify`, `keyToMnemonic`,
`mnemonicToKey`, `Point.fromSEC1`, the WebCrypto primitives, the random
salt and IV, and `new Date()`. Every call to the core kit consumes the
next reply of a script, and so do the Google token requests and the
prompts. The Drive listing, the files' parsed contents and the upload's
result are fixed for a `DriveBackup.Drive`.

## Model

| member | source | states |
|---|---|---|
| Base64.Encode | src/drive/cryptoBox.ts:9-11 | `b64` output has a length divisible by 4 and uses only the base64 alphabet and `=` |
| Base64.DecodeEncode | src/drive/cryptoBox.ts:9-18 | `unb64(b64(bytes))` gives back the same bytes |
| Base64.EncodeInjective | src/drive/cryptoBox.ts:9-11 | different byte strings encode to different base64 text |
| CryptoBox.DeriveKey | src/drive/cryptoBox.ts:23-43 | key derivation succeeds exactly when the iteration count is between 1 and 2^32-1, the range WebCrypto accepts |
| CryptoBox.EncryptText | src/drive/cryptoBox.ts:60-81 | the envelope records PBKDF2, SHA-256, AES-GCM and 310000 iterations; its salt and IV decode to the 16 and 12 random bytes drawn |
| CryptoBox.DecryptEncrypt | src/drive/cryptoBox.ts:60-103 | decrypting what `encryptText` produced, with the same passphrase, gives back the plaintext |
| CryptoBox.DecryptWithStoredIterations | src/drive/cryptoBox.ts:94-96 | decryption derives the key with the iteration count stored in the envelope, so an envelope sealed under any valid count opens |
| CryptoBox.DecryptIgnoresNames | src/drive/cryptoBox.ts:89-103 | the algorithm names in the envelope do not affect decryption |
| CryptoBox.DecryptFailsClosed | src/drive/cryptoBox.ts:97-101 | when AES-GCM rejects the ciphertext (wrong passphrase or tampering), no plaintext is returned |
| CryptoBox.DecryptRejectsIterations | src/drive/cryptoBox.ts:96 | an iteration count out of range is rejected before any decryption |
| CryptoBox.FreshRandomnessDiffers | src/drive/cryptoBox.ts:65-66 | two encryptions that drew different salts or IVs produce different envelopes |
| BackupFormat.ReadBack | src/drive/backupFormat.ts:10-22 | the JSON form of a record reads back its `v`, `app`, `createdAt` and the whole `encrypted` envelope |
| BackupFormat.PayloadReadBack | src/drive/cryptoBox.ts:48-52 | the envelope as `JSON.stringify` wrote it reads back as the same envelope |
| BackupFormat.KdfReadBack | src/drive/cryptoBox.ts:49 | the `kdf` object as written reads back its name, hash, iteration count and salt |
| BackupFormat.CipherReadBack | src/drive/cryptoBox.ts:50 | the `cipher` object as written reads back its name and IV |
| BackupFormat.IterationsOf | src/drive/cryptoBox.ts:26 | an absent `iterations` gives `deriveKey`'s default of 310000; any other count read is 0, 1 or the stored number |
| BackupFormat.BareEnvelopeReads | src/drive/cryptoBox.ts:94-100 | an envelope holding only `saltB64`, `ivB64` and `ciphertextB64` is read, with the default count of 310000 |
| BackupFormat.ReplaceColons | src/drive/backupFormat.ts:29 | keeps the length; every `:` becomes `-` and every other character is unchanged |
| BackupFormat.StripFraction | src/drive/backupFormat.ts:29 | removing `\..+` never lengthens the string or adds characters |
| BackupFormat.MakeFileName | src/drive/backupFormat.ts:28-31 | the name is `w3a-mpc-backup-` + timestamp + `.json`, and the timestamp contains no colon |
| BackupFormat.NameCarriesListingPrefix | src/drive/backupFormat.ts:30 | every generated name starts with the prefix the Drive listing filters on |
| BackupFormat.StampOfIsoInstant | src/drive/backupFormat.ts:29 | for `YYYY-MM-DDTHH:mm:ss.sssZ` the timestamp is `YYYY-MM-DDTHH-mm-ss` |
| BackupFormat.StampMasksColons | src/drive/backupFormat.ts:29 | the timestamp is the first 19 characters of the instant, with the two colons turned into dashes |
| BackupFormat.NamesSortLikeInstants | src/drive/backupFormat.ts:28-31 | two file names compare in the same order as their instants truncated to the second |
| BackupFormat.StampsSortLikeInstants | src/drive/backupFormat.ts:29 | two timestamps have the same length and compare in the same order as their instants truncated to the second |
| BackupFormat.AffixesKeepOrder | src/drive/backupFormat.ts:30 | the fixed `w3a-mpc-backup-` prefix and `.json` suffix leave the order of equally long timestamps unchanged |
| JsonValue.Lookup | src/hooks/useFactorManager.ts:134 | a key is found exactly when some binding has it, and the value found is bound to it |
| JsonValue.Put | src/hooks/useFactorManager.ts:373 | after `acc[key] = value`, `key` reads `value` and every other key reads as before |
| JsonValue.Assign | src/hooks/useFactorManager.ts:33 | copied properties override, and every other property keeps its value |
| JsonValue.SpreadAfter | src/hooks/useFactorManager.ts:33 | in `{ pub, ...parsed }`, `pub` comes from the parsed object when it has one, else from the entry key; every other key reads as in the parsed object |
| Text.LexLeTotal | src/hooks/useDriveBackup.ts:134-136 | any two strings are comparable in the order used for `localeCompare` |
| Text.LexLeTransitive | src/hooks/useDriveBackup.ts:134-136 | that order is transitive |
| Text.TrimEmpty | src/hooks/useDriveBackup.ts:160 | `trim()` yields "" exactly for strings made only of whitespace |
| Text.ParseIntOfDecimal | src/hooks/useDriveBackup.ts:161 | `parseInt` reads back the decimal rendering of every natural number |
| Text.DigitsValueOfRendering | src/components/factor/KeyDetailsDisplay.tsx:30 | the digits of `n.toString(radix)` denote `n` |
| Text.ToLower | src/components/factor/KeyDetailsDisplay.tsx:58 | keeps the length, lowers each character and leaves no ASCII upper case |
| Text.Utf16Length | src/hooks/useDriveBackup.ts:76 | `length` counts UTF-16 units: at least one and at most two per character |
| Sorting.SortBySorted | src/hooks/useDriveBackup.ts:134 | sorting by a total preorder yields a sequence ordered by it |
| CoreKit.Answer | src/hooks/useFactorManager.ts:128-131 | an awaited call gets the script's next reply; a synchronous read that throws gets that reply, and one that returns reports the service's current status and descriptions |
| CoreKit.Service.Invoke | src/hooks/useFactorManager.ts:77-85 | an awaited call is logged with the state it met, gets the script's next reply, consumes it, and takes on its state when it returned and keeps the old one when it threw |
| CoreKit.Service.Query | src/hooks/useFactorManager.ts:365 | a synchronous read is logged and consumes one reply; it throws with that reply's code, or returns that value and leaves the status and descriptions as they were |
| CoreKit.ServedAppend | src/hooks/useFactorManager.ts:128-155 | calls served up to some state, followed by calls served from that state, are served together |
| CoreKit.ServedDeterministic | src/hooks/useFactorManager.ts:128-155 | the same calls served from the same state end in the same state |
| CoreKit.ServedConsumes | src/hooks/useFactorManager.ts:128-155 | served calls use the script in order: each awaited call got the reply at its own position while the script lasts, and the script left is the one without its first replies |
| FactorManager.GetValidFactors | src/hooks/useFactorManager.ts:26-39 | yields at most one factor per entry |
| FactorManager.ValidFactorsAreFilterThenBuild | src/hooks/useFactorManager.ts:26-39 | exactly one factor for each entry whose array is non-empty, in order, built from that entry's first description |
| FactorManager.EmptyEntriesDropped | src/hooks/useFactorManager.ts:29 | entries whose description array is empty contribute no factor |
| FactorManager.FieldIsLookup | src/hooks/useFactorManager.ts:30-36 | a factor's property reads as in `{ pub, ...JSON.parse(first) }`, or as in `{ pub, raw: first }` when parsing throws |
| FactorManager.HasSeedPhraseIff | src/hooks/useFactorManager.ts:133-135 | `some` holds exactly when some factor's `module` is `"seedPhrase"` |
| FactorManager.FindSeedPhrase | src/hooks/useFactorManager.ts:258-260 | `find` returns a factor exactly when one is a seed-phrase factor, and it returns the first such factor |
| FactorManager.BuildShareMap | src/hooks/useFactorManager.ts:372-375 | the `reduce` computes the rebuilt map, and its keys are exactly the factors' `pub` values |
| FactorManager.ShareMapKeys | src/hooks/useFactorManager.ts:372-375 | the keys of the map the `reduce` builds are exactly the `pub` values of the factors |
| FactorManager.ShareMapLastWins | src/hooks/useFactorManager.ts:372-375 | each key holds `[JSON.stringify(factor)]` of the last factor with that `pub` |
| FactorManager.ShareMapSingletons | src/hooks/useFactorManager.ts:291-294 | every array in the rebuilt map has exactly one element |
| FactorManager.RunsAppend | src/hooks/useFactorManager.ts:125-160 | a completed run followed by a run starting on the state it left is a run of both plans, with the outcome of the second |
| FactorManager.MfaRunRules | src/hooks/useFactorManager.ts:74-89 | an `enableMFA` attempt starts with its only `init`, makes at most three calls, commits only while logged in, and passes exactly when every call returned and the key converted |
| FactorManager.MfaCommitsWhenLoggedIn | src/hooks/useFactorManager.ts:84-86 | when nothing throws and the key converts, the attempt commits exactly when the service is logged in |
| FactorManager.CreateRunRules | src/hooks/useFactorManager.ts:125-160 | a creation attempt starts with its only `init`, commits only while logged in, creates only a RECOVERY seed-phrase factor with the drawn key and only when none was found, and mutates nothing when one was |
| FactorManager.CreatesWhenNoneFound | src/hooks/useFactorManager.ts:137-149 | when the survey finds no seed-phrase factor, the attempt calls `createFactor` with the drawn key on the descriptions read |
| FactorManager.DeleteRunRules | src/hooks/useFactorManager.ts:250-298 | a deletion attempt calls `init` again only after the delete, deletes only the point of the first seed-phrase factor's `pub` read by the survey, commits after every delete that returns, and mutates nothing without a confirmed target |
| FactorManager.DeletesWhenConfirmed | src/hooks/useFactorManager.ts:263-279 | a confirmed truthy seed-phrase `pub` that parses is deleted, and a delete that returns is followed by `commitChanges` |
| FactorManager.Manager.constructor | src/hooks/useFactorManager.ts:19 | `backupFactorKey` starts as "" |
| FactorManager.Manager.FilteredShares | src/hooks/useFactorManager.ts:366-375 | the displayed `shareDescriptions` are rebuilt from the valid factors |
| FactorManager.Manager.Caught | src/hooks/useFactorManager.ts:90-113 | an error triggers one retry exactly when it is a 1401 conflict on the first attempt; otherwise it is logged |
| FactorManager.Manager.CommitIfLoggedIn | src/hooks/useFactorManager.ts:84-86 | `commitChanges` is called, on the current state, exactly when the service reports `LOGGED_IN`; the call is served by the instance and its throw is the result; otherwise nothing is called |
| FactorManager.Manager.MfaAttempt | src/hooks/useFactorManager.ts:74-89 | the calls are `init`, `enableMFA` and, when the key converts and the service is logged in, `commitChanges`, stopping exactly at a throw; each call is made on the state the one before it left and gets the service's answer, and the service ends in the state those answers leave; it passes exactly when the plan's outcome does, and then the stored key is the one `enableMFA` returned; the log gains the mnemonic on success and nothing otherwise |
| FactorManager.Manager.EnableAndCommit | src/hooks/useFactorManager.ts:80-89 | the calls are `enableMFA`, then `commitChanges` exactly when the key converts and the service is logged in, stopping at a throw; each call is made on the state the one before it left and gets the service's answer, and the service ends in the state those answers leave; a key `keyToMnemonic` rejects fails; on success the returned key is stored and exactly its mnemonic is logged; a failure changes neither |
| FactorManager.Manager.EnableMFA | src/hooks/useFactorManager.ts:69-114 | without an instance it refuses and changes nothing; otherwise the first attempt and, exactly when it ended in a 1401 conflict, the retry run the `enableMFA` plan one after the other from the starting state (each call is made on the state the one before it left and gets the service's answer, and the service ends in the state those answers leave); the stored key is the one the last attempt's `enableMFA` returned when that attempt passed, else unchanged; the log is each attempt's notes followed by what its `catch` logs |
| FactorManager.Manager.Survey | src/hooks/useFactorManager.ts:128-132 | the calls are `init`, then `getKeyDetails` on the state `init` left, stopping at a throw, with nothing that mutates metadata; each call is made on the state the one before it left and gets the service's answer, and the service ends in the state those answers leave; on success it returns the share descriptions `getKeyDetails` read |
| FactorManager.Manager.CreateAndCommit | src/hooks/useFactorManager.ts:144-160 | the calls are `createFactor` of a RECOVERY factor described as `seedPhrase` with the drawn key, then `commitChanges` exactly when the mnemonic converts and the service is logged in, stopping at a throw; each call is made on the state the one before it left and gets the service's answer, and the service ends in the state those answers leave; success logs exactly the mnemonic, failure logs nothing |
| FactorManager.Manager.CreateAttempt | src/hooks/useFactorManager.ts:125-160 | the calls are `init`, `getKeyDetails` and, exactly when the descriptions read hold no seed-phrase factor, the creation plan on the state read; each call is made on the state the one before it left and gets the service's answer, and the service ends in the state those answers leave; when a seed-phrase factor exists it stops there and logs exactly that note; after a creation the log is the creation's |
| FactorManager.Manager.CreateMnemonicFactor | src/hooks/useFactorManager.ts:120-205 | without an instance it refuses and logs nothing; otherwise the first attempt and, exactly when it ended in a 1401 conflict, the retry with its own key run the creation plan one after the other from the starting state (each call is made on the state the one before it left and gets the service's answer, and the service ends in the state those answers leave); no attempt creates a second seed-phrase factor, commits while not logged in, or mutates anything when a seed-phrase factor was found; the log is each attempt's notes followed by what its `catch` logs |
| FactorManager.Manager.DeleteAndCommit | src/hooks/useFactorManager.ts:278-295 | the calls are `deleteFactor`, `commitChanges` whatever the status, `init` and `getKeyDetails`, stopping at a throw; each call is made on the state the one before it left and gets the service's answer, and the service ends in the state those answers leave; it passes only when all four returned, and then it logs exactly the map rebuilt from the final descriptions, else nothing |
| FactorManager.Manager.ShowAfterDelete | src/hooks/useFactorManager.ts:283-295 | the calls are `init` and `getKeyDetails`, stopping at a throw; each call is made on the state the one before it left and gets the service's answer, and the service ends in the state those answers leave; on success it logs the map rebuilt from the valid factors `getKeyDetails` read, on failure nothing |
| FactorManager.Manager.DeleteAttempt | src/hooks/useFactorManager.ts:250-298 | the calls are `init`, `getKeyDetails` and, exactly when the user confirms a truthy seed-phrase `pub` that `Point.fromSEC1` parses, the deletion plan for that point; each call is made on the state the one before it left and gets the service's answer, and the service ends in the state those answers leave; without such a `pub` or without confirmation it logs why and stops; after a deletion the log is the deletion's |
| FactorManager.Manager.DeleteDecide | src/hooks/useFactorManager.ts:261-279 | with a confirmed truthy seed-phrase `pub` that parses, it runs the deletion plan for that point from the current state (each call is made on the state the one before it left and gets the service's answer, and the service ends in the state those answers leave) and logs what the deletion logs; otherwise it makes no call, logs a missing factor or a declined confirmation, and fails only when `Point.fromSEC1` throws |
| FactorManager.Manager.CommitAndShow | src/hooks/useFactorManager.ts:279-295 | the calls are `commitChanges` whatever the status, `init` and `getKeyDetails`, stopping at a throw; each call is made on the state the one before it left and gets the service's answer, and the service ends in the state those answers leave; on success it logs the final map, on failure nothing; the stored key is untouched |
| FactorManager.Manager.DeleteSeedPhraseFactor | src/hooks/useFactorManager.ts:245-354 | without an instance it refuses and logs nothing; otherwise the first attempt and, exactly after a 1401 conflict, the retry with its own confirmation run the deletion plan one after the other from the starting state (each call is made on the state the one before it left and gets the service's answer, and the service ends in the state those answers leave); every attempt deletes only the first seed-phrase factor's point and commits after every delete that returns, an unconfirmed attempt mutates nothing, and the log is each attempt's notes followed by what its `catch` logs |
| FactorManager.Manager.InputBackupFactorKey | src/hooks/useFactorManager.ts:44-64 | it refuses without an instance or with an empty stored key; when `new BN(key, "hex")` throws it makes no call and logs the error; otherwise it makes exactly one `inputFactorKey` call with that number, served by the instance on its current state, and logs the error it threw or the status it left when that is `LOGGED_IN` or `REQUIRED_SHARE` |
| FactorManager.Manager.MnemonicToFactorKeyHex | src/hooks/useFactorManager.ts:210-223 | returns the converted key, stores it and logs it; a failed conversion returns `undefined`, leaves the stored key alone and logs the error; without an instance nothing is logged |
| FactorManager.Manager.GetDeviceFactor | src/hooks/useFactorManager.ts:228-240 | one `getDeviceFactor` call, served by the instance on its current state; the stored key becomes what it returned, possibly `undefined`, and the log gains that key; on an error the stored key is kept and the error is logged |
| FactorManager.Manager.GetKeyDetails | src/hooks/useFactorManager.ts:360-379 | one synchronous `getKeyDetails` call, served by the instance without changing its state; its error reaches the caller and logs nothing; otherwise it shows and logs the map rebuilt from the valid factors of the current descriptions |
| KeyDetailsDisplay.FormatPubKey | src/components/factor/KeyDetailsDisplay.tsx:27-33 | a falsy key gives two empty strings; a big-number coordinate gives hex digits that denote it; a missing coordinate gives "" |
| KeyDetailsDisplay.Collected | src/components/factor/KeyDetailsDisplay.tsx:41-50 | collects at most one share per entry |
| KeyDetailsDisplay.ComesBeforeIsPreorder | src/components/factor/KeyDetailsDisplay.tsx:51 | the index comparator is a total preorder |
| KeyDetailsDisplay.SortShares | src/components/factor/KeyDetailsDisplay.tsx:51 | sorting throws exactly when there are two or more shares and one is `null`; otherwise the result is a permutation of the input |
| KeyDetailsDisplay.SortSharesSorted | src/components/factor/KeyDetailsDisplay.tsx:51 | the sorted shares are in non-decreasing `tssShareIndex` order |
| KeyDetailsDisplay.ParseShares | src/components/factor/KeyDetailsDisplay.tsx:39-52 | the loop collects the parsed first descriptions; the result is their sorted permutation, ordered by index and no longer than the entries |
| KeyDetailsDisplay.CollectedAreParsedFactors | src/components/factor/KeyDetailsDisplay.tsx:41-48 | the panel lists exactly the parsed descriptions of the factors `getValidFactors` builds, in the same order |
| KeyDetailsDisplay.SameCountIffAllParse | src/components/factor/KeyDetailsDisplay.tsx:42-48 | the panel lists no more shares than there are valid factors; the counts are equal exactly when every non-empty entry's first description parses |
| KeyDetailsDisplay.GetFactorTypeInfo | src/components/factor/KeyDetailsDisplay.tsx:57-71 | succeeds exactly when `module` is a string (otherwise `toLowerCase` throws) |
| KeyDetailsDisplay.ClassifyIgnoresCase | src/components/factor/KeyDetailsDisplay.tsx:58 | two `module` values that differ only in letter case get the same classification |
| KeyDetailsDisplay.ClassificationIsFirstMatch | src/components/factor/KeyDetailsDisplay.tsx:60-70 | each kind is chosen exactly under its branch's condition; `other` becomes a device only with a truthy `browserName` |
| KeyDetailsDisplay.SeedPhraseShowsAsRecovery | src/components/factor/KeyDetailsDisplay.tsx:60-61 | the factor the hook creates (`seedPhrase`) shows as a Recovery Share |
| KeyDetailsDisplay.InfoDistinguishesKinds | src/components/factor/KeyDetailsDisplay.tsx:60-70 | different kinds get different type labels and colours |
| KeyDetailsDisplay.DisplayPub | src/components/factor/KeyDetailsDisplay.tsx:131 | the first min(20, n) characters, then "...", then the last min(20, n) characters |
| KeyDetailsDisplay.DisplayPubShape | src/components/factor/KeyDetailsDisplay.tsx:131 | a key of 40 characters or more shows as 43 characters; a key of 20 or fewer shows twice |
| DriveBackup.Drive.constructor | src/drive/driveApi.ts:9-15 | the scripted Drive starts with no uploads |
| DriveBackup.TokenOutcome | src/hooks/useDriveBackup.ts:63 | a cached token is used as it is |
| DriveBackup.RepliesAfter | src/hooks/useDriveBackup.ts:63 | with a cached token, no token popup is consumed |
| DriveBackup.BackupHook.constructor | src/hooks/useDriveBackup.ts:19-22 | no token, and no operation in progress |
| DriveBackup.BackupHook.ConnectDrive | src/hooks/useDriveBackup.ts:27-50 | a missing client id throws before any popup; a returned token is kept; `isConnecting` is false again afterwards |
| DriveBackup.BackupHook.ObtainToken | src/hooks/useDriveBackup.ts:63 | reuses the cached token without a popup; otherwise it behaves as `connectDrive` |
| DriveBackup.RecordFor | src/hooks/useDriveBackup.ts:86-94 | the record is a RECOVERY share described as `seedPhrase` with the caller's label and time |
| DriveBackup.UnsealsOwnRecord | src/hooks/useDriveBackup.ts:86-199 | the JSON of a record made from a mnemonic passes the format check and unseals, under the same passphrase, to that mnemonic |
| DriveBackup.BackupHook.BackupRecoveryToDrive | src/hooks/useDriveBackup.ts:56-110 | a token failure propagates; a cancelled or empty passphrase uploads nothing; a passphrase under 8 UTF-16 units is refused without an upload; otherwise the upload is the JSON record under `makeFileName()`; `isBackingUp` ends false; a token failure leaves the cached token as it was, and `isConnecting` ends as `connectDrive` leaves it |
| DriveBackup.BackupHook.SealAndUpload | src/hooks/useDriveBackup.ts:66-105 | after one prompt: a cancelled or empty passphrase and one under 8 UTF-16 units upload nothing; otherwise the record sealed under the passphrase is uploaded under `makeFileName()` when Drive accepts it |
| DriveBackup.NewerFirstIsPreorder | src/hooks/useDriveBackup.ts:134-136 | the newest-first comparator is a total preorder |
| DriveBackup.SortNewestFirst | src/hooks/useDriveBackup.ts:134-136 | the sorted copy is a permutation of the listing |
| DriveBackup.SortNewestFirstOrdered | src/hooks/useDriveBackup.ts:134-136 | the sorted copy has non-increasing `createdTime`, with a missing time counting as "" |
| DriveBackup.Select | src/hooks/useDriveBackup.ts:139-165 | cancel gives none; a blank answer, a non-number or a number out of range picks the newest; a number k in 1..n picks the k-th |
| DriveBackup.SelectTypedNumber | src/hooks/useDriveBackup.ts:160-164 | typing the 1-based number of a listed file picks that file |
| DriveBackup.CheckRecord | src/hooks/useDriveBackup.ts:175-177 | accepts exactly the values with `v` equal to 1 and `app` equal to `w3a-mpc` |
| DriveBackup.Unseal | src/hooks/useDriveBackup.ts:193-199 | succeeds exactly when the salt, IV, iteration count (310000 when absent) and ciphertext can be read and decrypt; every failure is the one "decryption failed" error |
| DriveBackup.RestoreFile | src/hooks/useDriveBackup.ts:168-199 | the passphrase is asked exactly when the file downloads, parses and passes the format check; a restored mnemonic is the decryption under the typed passphrase |
| DriveBackup.RestoreFlow | src/hooks/useDriveBackup.ts:116-207 | a token failure, a failed listing and an empty listing each end the restore with no prompt; at most two prompts are shown |
| DriveBackup.BackupHook.RestoreRecoveryFromDrive | src/hooks/useDriveBackup.ts:116-207 | returns what the restore flow gives for the token, listing and answers; consumes exactly the prompts it showed; uploads nothing; `isRestoring` ends false; the cached token changes only to a newly obtained one, and `isConnecting` ends as `connectDrive` leaves it |
| DriveBackup.BackupHook.RestoreListed | src/hooks/useDriveBackup.ts:123-199 | with a token held, returns what the restore flow gives for the listing and answers and consumes exactly the prompts it showed |
| DriveBackup.BackupHook.RestoreChosen | src/hooks/useDriveBackup.ts:168-199 | the part of the restore after the pick behaves as `RestoreFile` |
| DriveBackup.RestoredComesFromListedBackup | src/hooks/useDriveBackup.ts:116-207 | a restored mnemonic is what some listed backup that passed the format check decrypts to |
| DriveBackup.RejectedBeforePassphrase | src/hooks/useDriveBackup.ts:174-183 | a file that fails the format check is rejected before the passphrase is asked |
| DriveBackup.SingleBackupNeedsNoChoice | src/hooks/useDriveBackup.ts:139-141 | with a single backup there is no selection prompt |
| DriveBackup.BackupThenRestore | src/hooks/useDriveBackup.ts:56-207 | restoring the only backup with the passphrase it was made with gives back the mnemonic |
| DriveBackup.BareEnvelopeUnseals | src/hooks/useDriveBackup.ts:193-199 | a record whose envelope keeps only salt, IV and ciphertext, sealed under the default count, unseals to its mnemonic |
| DriveBackup.WrongPassphraseRestoresNothing | src/hooks/useDriveBackup.ts:193-199 | with a single backup that passes the format check, an unreadable envelope or a failed decryption under the typed passphrase restores nothing, after one prompt, and reports the one fixed error |
| DriveBackup.BackupHook.ListBackupFiles | src/hooks/useDriveBackup.ts:213-230 | returns the listing as Drive gave it, or the token or listing error; the cached token becomes the newly obtained one and is otherwise kept; `isConnecting` ends false when there was no cached token and a client id is configured, and is left alone otherwise |
| Web3AuthSession.Updater | src/hooks/useWeb3Auth.ts:47-54 | the new status is the current one, and it equals the previous one exactly when nothing changed |
| Web3AuthSession.UpdaterIdempotent | src/hooks/useWeb3Auth.ts:47-54 | a second tick with no change in between changes nothing |
| Web3AuthSession.Session.constructor | src/hooks/useWeb3Auth.ts:29 | the local status starts as `NOT_INITIALIZED` |
| Web3AuthSession.Session.InitEffect | src/hooks/useWeb3Auth.ts:31-39 | only an instance reporting `NOT_INITIALIZED` is initialised, with one `init` call the instance serves; once `init` returns, the local status mirrors the instance; otherwise it is unchanged |
| Web3AuthSession.Session.PollTick | src/hooks/useWeb3Auth.ts:42-58 | without an instance nothing changes; with one, the local status mirrors the instance after a tick |
| Web3AuthSession.Session.Logout | src/hooks/useWeb3Auth.ts:65-69 | without an instance nothing changes; otherwise one `logout` call the instance serves, and the local status takes the status it left |
| Web3AuthSession.Session.GetUserInfo | src/hooks/useWeb3Auth.ts:60-63 | `null` exactly when there is no instance; otherwise the answer of one synchronous `getUserInfo` call, which changes neither the instance's status and descriptions nor the local status |

## Left out

- The core-kit instance, Google Identity Services, the Drive REST calls and `window.prompt`/`window.confirm` are foreign. They are scripted replies (`CoreKit.Service`, `DriveBackup.Drive`, the `confirmed` arguments), not models of those services.
- The WebCrypto primitives are left abstract, and so are `TextEncoder`/`TextDecoder`, `JSON.parse`, `JSON.stringify`, `keyToMnemonic`, `mnemonicToKey`, `generateFactorKey`, `Point.fromSEC1` and `new BN(hex)`. They are partial functions given as parameters, `None` where they throw. The model relies only on the stated round-trip of UTF-8 and AES-GCM (`CryptoBox.Sound`).
- `new Date()`, `toISOString` and `crypto.getRandomValues` are parameters. Years outside 0000-9999 (the six-digit ISO form) are not covered by the file-name lemmas.
- Console output (`uiConsole`, `console.log`, `alert`) is reduced to a log of notes, or left out. `toLocaleString("zh-CN")` in the prompt texts is not modelled.
- Asynchrony, interleaving of concurrent calls, React re-renders and stale closures are not modelled. Each hook method runs to completion on the state it starts from. The 300 ms timer is reduced to individual ticks.
- JSON numbers are integers only. Fractions, exponents, `NaN` and `Infinity` are not modelled.
- `CoreKit.Service.Query`: the synchronous `getKeyDetails` and `getUserInfo` consume a script reply, but only to learn whether they throw (and, for `getUserInfo`, the value); when they return, they report the service's current state and change nothing.
- `Object.entries` ordering of integer-like keys is not modelled: the entries are taken in the order given. `shareDescriptions` whose arrays are `null` or `undefined` are treated as empty.
- `DriveBackup.Drive`: a file that `BackupRecoveryToDrive` uploads is recorded in `uploads` but never reaches a later listing or download; the listing and the file contents are fixed. Backup and restore are joined only by the function-level lemma `DriveBackup.BackupThenRestore`.
- `FactorManager.ShareMapOf`: the rebuilt `shareDescriptions` is a map, so the insertion order of the object that `reduce` fills (the order `uiConsole` prints and a later `Object.entries` walks) is not modelled.
- `JSON.stringify` in the upload is not modelled as text. `DriveBackup.Upload` holds the value, and `DriveBackup.Drive.contents` holds what `JSON.parse` returned for each file.
- `DriveBackup.BackupHook.RestoreRecoveryFromDrive`: `localeCompare` is modelled as code-point order. For two ISO timestamps of the same format, which is what `createdTime` holds, it gives the same order as the locale comparison.
- `KeyDetailsDisplay.SortShares`: a `tssShareIndex` that converts to `NaN` makes the comparator inconsistent, and the engine's order is then implementation-defined. The model sorts such a share as index 0. String and array `tssShareIndex` values are also taken as `NaN`, although JavaScript converts numeric strings.
- `KeyDetailsDisplay.DisplayPub`: a non-string `pub` (where `slice` throws) is not modelled. Slicing counts code points rather than UTF-16 units.
- `BackupFormat.PayloadOf`: an `iterations` that is a string, an array or an object (which WebIDL would convert through `ToNumber`), and a `saltB64`, `ivB64` or `ciphertextB64` that is not a string (which `atob` would convert to its string form), make the envelope unreadable in the model.
- `Text.ToLower` lowers only ASCII letters. Full Unicode case mapping is not modelled. The factor classification does not depend on it: none of `seedphrase`, `hashedshare` and `other` contains `k` or `i`, the only ASCII letters that a non-ASCII character lowers to.
- `DriveFile.modifiedTime` and `size` are listed by Drive but never read, so they are not modelled.
- `evmProvider` and `EthereumSigningProvider` in the session hook are outside the core and not modelled.
- The rendering of the key-details panel (JSX, the clipboard copy, the overview counts) is not modelled.
