/**
 * The passphrase envelope of a backup: PBKDF2 (section 5.2 of RFC 8018)
 * with HMAC-SHA-256 turns the UTF-8 passphrase and a 16-byte salt into a
 * 256-bit AES-GCM (NIST SP 800-38D) key, which seals the UTF-8 plaintext
 * under a 12-byte IV; salt, IV and ciphertext are stored as base64.
 *
 * The WebCrypto computations are not modelled: they are the functions of a
 * `Primitives` value, and the one thing the model relies on is `Sound`,
 * the correctness of UTF-8 and of AES-GCM decryption.
 */
module CryptoBox {
  import opened Wrappers
  import Base64

  type byte = Base64.byte

  const KdfName: string := "PBKDF2"
  const HashName: string := "SHA-256"
  const CipherName: string := "AES-GCM"
  /** The iteration count `encryptText` uses (and `deriveKey`'s default). */
  const DefaultIterations: int := 310000
  const SaltLength: nat := 16
  const IvLength: nat := 12
  /** WebIDL `[EnforceRange] unsigned long` bound on the iteration count. */
  const MaxIterations: int := 0xFFFF_FFFF

  /** `TextEncoder`, `TextDecoder`, PBKDF2-SHA-256 with a 256-bit output, AES-GCM. */
  datatype Primitives = Primitives(
    utf8Encode: string -> seq<byte>,
    utf8Decode: seq<byte> -> string,
    pbkdf2: (seq<byte>, seq<byte>, nat) -> seq<byte>,
    seal: (seq<byte>, seq<byte>, seq<byte>) -> seq<byte>,
    open: (seq<byte>, seq<byte>, seq<byte>) -> Option<seq<byte>>)

  /** UTF-8 decoding inverts encoding, and AES-GCM opens what it sealed under the same key and IV. */
  ghost predicate Sound(p: Primitives)
  {
    && (forall s :: p.utf8Decode(p.utf8Encode(s)) == s)
    && (forall key, iv, m :: p.open(key, iv, p.seal(key, iv, m)) == Some(m))
  }

  datatype KdfParams = KdfParams(name: string, hash: string, iterations: int, saltB64: string)
  datatype CipherParams = CipherParams(name: string, ivB64: string)
  datatype EncryptedPayload = EncryptedPayload(kdf: KdfParams, cipher: CipherParams, ciphertextB64: string)

  /** Why `decryptText` rejects: `atob` threw, `deriveKey` threw, or AES-GCM refused the data. */
  datatype CryptoError = BadBase64 | BadIterations | Rejected

  /**
   * `deriveKey(passphrase, salt, iterations)`: WebCrypto refuses a count of
   * zero and one outside the `unsigned long` range.
   */
  function DeriveKey(p: Primitives, passphrase: string, salt: seq<byte>, iterations: int): (key: Result<seq<byte>, CryptoError>)
    ensures key.Success? <==> 1 <= iterations <= MaxIterations
  {
    if 1 <= iterations <= MaxIterations then Success(p.pbkdf2(p.utf8Encode(passphrase), salt, iterations))
    else Failure(BadIterations)
  }

  /** `encryptText(passphrase, plaintext)`, the random salt and IV being given. */
  function EncryptText(p: Primitives, passphrase: string, plaintext: string, salt: seq<byte>, iv: seq<byte>): (e: EncryptedPayload)
    requires |salt| == SaltLength && |iv| == IvLength
    ensures e.kdf.name == KdfName && e.kdf.hash == HashName && e.cipher.name == CipherName
    ensures e.kdf.iterations == DefaultIterations
    ensures Base64.Decode(e.kdf.saltB64) == Some(salt)
    ensures Base64.Decode(e.cipher.ivB64) == Some(iv)
  {
    Base64.DecodeEncode(salt);
    Base64.DecodeEncode(iv);
    var key := DeriveKey(p, passphrase, salt, DefaultIterations).value;
    EncryptedPayload(
      KdfParams(KdfName, HashName, DefaultIterations, Base64.Encode(salt)),
      CipherParams(CipherName, Base64.Encode(iv)),
      Base64.Encode(p.seal(key, iv, p.utf8Encode(plaintext))))
  }

  /**
   * `decryptText(passphrase, payload)`: salt, IV and iteration count come
   * from the payload; the names it records are not consulted.
   */
  function DecryptText(p: Primitives, passphrase: string, e: EncryptedPayload): Result<string, CryptoError>
  {
    match (Base64.Decode(e.kdf.saltB64), Base64.Decode(e.cipher.ivB64))
    case (Some(salt), Some(iv)) =>
      (match DeriveKey(p, passphrase, salt, e.kdf.iterations)
       case Failure(err) => Failure(err)
       case Success(key) =>
         match Base64.Decode(e.ciphertextB64)
         case None => Failure(BadBase64)
         case Some(ct) =>
           match p.open(key, iv, ct)
           case None => Failure(Rejected)
           case Some(pt) => Success(p.utf8Decode(pt)))
    case _ => Failure(BadBase64)
  }

  /** `decryptText(p, encryptText(p, t)) == t`. */
  lemma DecryptEncrypt(p: Primitives, passphrase: string, plaintext: string, salt: seq<byte>, iv: seq<byte>)
    requires Sound(p)
    requires |salt| == SaltLength && |iv| == IvLength
    ensures DecryptText(p, passphrase, EncryptText(p, passphrase, plaintext, salt, iv)) == Success(plaintext)
  {
    var key := DeriveKey(p, passphrase, salt, DefaultIterations).value;
    Base64.DecodeEncode(p.seal(key, iv, p.utf8Encode(plaintext)));
  }

  /**
   * The key is derived from the stored iteration count: an envelope sealed
   * under any admissible count `n` opens, whatever `encryptText` would use.
   */
  lemma DecryptWithStoredIterations(p: Primitives, passphrase: string, plaintext: string, salt: seq<byte>, iv: seq<byte>, n: int)
    requires Sound(p)
    requires 1 <= n <= MaxIterations
    ensures
      var ct := p.seal(p.pbkdf2(p.utf8Encode(passphrase), salt, n), iv, p.utf8Encode(plaintext));
      var e := EncryptedPayload(KdfParams(KdfName, HashName, n, Base64.Encode(salt)), CipherParams(CipherName, Base64.Encode(iv)), Base64.Encode(ct));
      DecryptText(p, passphrase, e) == Success(plaintext)
  {
    Base64.DecodeEncode(salt);
    Base64.DecodeEncode(iv);
    Base64.DecodeEncode(p.seal(p.pbkdf2(p.utf8Encode(passphrase), salt, n), iv, p.utf8Encode(plaintext)));
  }

  /** The recorded algorithm names play no part in decryption. */
  lemma DecryptIgnoresNames(p: Primitives, passphrase: string, e: EncryptedPayload, kdfName: string, hash: string, cipherName: string)
    ensures
      var e' := e.(kdf := e.kdf.(name := kdfName, hash := hash), cipher := e.cipher.(name := cipherName));
      DecryptText(p, passphrase, e') == DecryptText(p, passphrase, e)
  {
  }

  /** When AES-GCM refuses the ciphertext (wrong key, tampering), no plaintext is returned. */
  lemma DecryptFailsClosed(p: Primitives, passphrase: string, e: EncryptedPayload)
    requires Base64.Decode(e.kdf.saltB64).Some? && Base64.Decode(e.cipher.ivB64).Some? && Base64.Decode(e.ciphertextB64).Some?
    requires 1 <= e.kdf.iterations <= MaxIterations
    requires p.open(p.pbkdf2(p.utf8Encode(passphrase), Base64.Decode(e.kdf.saltB64).value, e.kdf.iterations),
                    Base64.Decode(e.cipher.ivB64).value, Base64.Decode(e.ciphertextB64).value).None?
    ensures DecryptText(p, passphrase, e) == Failure(Rejected)
  {
  }

  /** An envelope whose iteration count is out of range is refused before any decryption. */
  lemma DecryptRejectsIterations(p: Primitives, passphrase: string, e: EncryptedPayload)
    requires Base64.Decode(e.kdf.saltB64).Some? && Base64.Decode(e.cipher.ivB64).Some?
    requires e.kdf.iterations < 1 || e.kdf.iterations > MaxIterations
    ensures DecryptText(p, passphrase, e) == Failure(BadIterations)
  {
  }

  /** Two encryptions drawing different salts (or different IVs) give different envelopes. */
  lemma FreshRandomnessDiffers(p: Primitives, passphrase: string, plaintext: string, salt1: seq<byte>, iv1: seq<byte>, salt2: seq<byte>, iv2: seq<byte>)
    requires |salt1| == SaltLength && |iv1| == IvLength && |salt2| == SaltLength && |iv2| == IvLength
    requires salt1 != salt2 || iv1 != iv2
    ensures EncryptText(p, passphrase, plaintext, salt1, iv1) != EncryptText(p, passphrase, plaintext, salt2, iv2)
  {
    var e1 := EncryptText(p, passphrase, plaintext, salt1, iv1);
    var e2 := EncryptText(p, passphrase, plaintext, salt2, iv2);
    if e1 == e2 {
      assert Base64.Decode(e1.kdf.saltB64) == Some(salt1) && Base64.Decode(e2.kdf.saltB64) == Some(salt2);
      assert Base64.Decode(e1.cipher.ivB64) == Some(iv1) && Base64.Decode(e2.cipher.ivB64) == Some(iv2);
    }
  }
}
