/**
 * Salted password hashing of the sign-up form. `hash_password` stores a
 * 32-byte random salt followed by the PBKDF2-HMAC-SHA256 key of the UTF-8
 * password (100 000 iterations); `check_password` splits a stored value at
 * byte 32 and recomputes the key. The key derivation function is a
 * parameter with 32-byte output (PBKDF2 as in section 5.2 of RFC 8018) and
 * the salt, drawn from `os.urandom(32)`, is an input.
 */
module PasswordHash {
  import opened Octets

  const SaltLength: nat := 32
  const KeyLength: nat := 32
  const Iterations: nat := 100_000

  /** A key derivation function (password, salt, iterations) with 32-byte keys. */
  type Kdf = f: (Bytes, Bytes, nat) -> Bytes | forall p, s, n :: |f(p, s, n)| == KeyLength
    witness (p: Bytes, s: Bytes, n: nat) => seq(KeyLength, _ => 0 as byte)

  /** The UTF-8 encoding of one character (a Unicode scalar value). */
  function EncodeChar(c: char): (bs: Bytes)
    ensures 1 <= |bs| <= 4
    ensures |bs| == 1 <==> c as int < 0x80
  {
    var n := c as int;
    if n < 0x80 then [n as byte]
    else if n < 0x800 then [(0xC0 + n / 0x40) as byte, (0x80 + n % 0x40) as byte]
    else if n < 0x1_0000 then
      [(0xE0 + n / 0x1000) as byte, (0x80 + n / 0x40 % 0x40) as byte, (0x80 + n % 0x40) as byte]
    else
      [(0xF0 + n / 0x4_0000) as byte, (0x80 + n / 0x1000 % 0x40) as byte,
       (0x80 + n / 0x40 % 0x40) as byte, (0x80 + n % 0x40) as byte]
  }

  /** `s.encode('utf-8')`. */
  function Utf8(s: string): (bs: Bytes)
    ensures |s| <= |bs| <= 4 * |s|
  {
    if s == [] then [] else EncodeChar(s[0]) + Utf8(s[1..])
  }

  /** A string of ASCII characters encodes to one byte per character, each its code. */
  lemma {:induction false} Utf8Ascii(s: string)
    requires forall i :: 0 <= i < |s| ==> s[i] as int < 0x80
    ensures |Utf8(s)| == |s| && forall i :: 0 <= i < |s| ==> Utf8(s)[i] as int == s[i] as int
  {
    if s != [] {
      Utf8Ascii(s[1..]);
    }
  }

  /** The part of a stored value `check_password` reads as the salt: `hashed[:32]`. */
  function StoredSalt(hashed: Bytes): (salt: Bytes)
    ensures |salt| <= SaltLength && salt <= hashed
    ensures |salt| == if |hashed| < SaltLength then |hashed| else SaltLength
  {
    if |hashed| < SaltLength then hashed else hashed[..SaltLength]
  }

  /** The part read as the key: `hashed[32:]`, empty for a short value. */
  function StoredKey(hashed: Bytes): (key: Bytes)
    ensures StoredSalt(hashed) + key == hashed
  {
    if |hashed| < SaltLength then [] else hashed[SaltLength..]
  }

  /** `hash_password`: the salt followed by the derived key, 64 bytes in all. */
  function HashPassword(password: string, salt: Bytes, kdf: Kdf): (hashed: Bytes)
    requires |salt| == SaltLength
    ensures |hashed| == SaltLength + KeyLength
    ensures hashed[..SaltLength] == salt
    ensures hashed[SaltLength..] == kdf(Utf8(password), salt, Iterations)
  {
    salt + kdf(Utf8(password), salt, Iterations)
  }

  /** `check_password`: recompute the key from the stored salt and compare it with the stored key. */
  function CheckPassword(password: string, hashed: Bytes, kdf: Kdf): (ok: bool)
    ensures ok ==> |hashed| == SaltLength + KeyLength
  {
    kdf(Utf8(password), StoredSalt(hashed), Iterations) == StoredKey(hashed)
  }

  /** A freshly hashed password verifies, for every password and every salt. */
  lemma CheckAfterHash(password: string, salt: Bytes, kdf: Kdf)
    requires |salt| == SaltLength
    ensures CheckPassword(password, HashPassword(password, salt, kdf), kdf)
  {
    var hashed := HashPassword(password, salt, kdf);
    assert StoredSalt(hashed) == salt;
  }

  /**
   * A stored value verifies exactly when it is what `hash_password` would
   * have produced from its own first 32 bytes as the salt.
   */
  lemma CheckIffRehash(password: string, hashed: Bytes, kdf: Kdf)
    ensures CheckPassword(password, hashed, kdf) <==>
      |hashed| >= SaltLength && hashed == HashPassword(password, hashed[..SaltLength], kdf)
  {
    if |hashed| >= SaltLength {
      assert hashed == hashed[..SaltLength] + hashed[SaltLength..];
    }
  }

  /** Keys are 32 bytes, so a stored value of at most 32 bytes (an empty key) never verifies. */
  lemma ShortNeverVerifies(password: string, hashed: Bytes, kdf: Kdf)
    requires |hashed| <= SaltLength
    ensures !CheckPassword(password, hashed, kdf)
  {
    assert |kdf(Utf8(password), StoredSalt(hashed), Iterations)| == KeyLength;
  }
}
