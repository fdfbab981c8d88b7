/**
 * The part of bcrypt the services rely on: `hash(plaintext, 10)` produces a
 * salted hash and `compare(plaintext, hash)` accepts exactly the plaintexts
 * whose key matches the one the hash was made from. bcrypt's key is the
 * first 72 bytes of the password's UTF-8 encoding; later bytes are ignored.
 * The random salt is a parameter. The digest is the key itself, so
 * one-wayness and the fixed 60-character output are not part of this model.
 */
module Bcrypt {

  /** Version `2b`, cost factor 10, as in `bcrypt.hash(password, 10)`. */
  const Prefix: string := "$2b$10$"

  /** bcrypt salts are 22 characters of its base-64 alphabet. */
  const SaltLength: nat := 22

  /** bcrypt keys on at most this many bytes of the password. */
  const MaxKeyBytes: nat := 72

  type Byte = b: int | 0 <= b < 256

  predicate IsSalt(salt: string) {
    |salt| == SaltLength
  }

  /** The UTF-8 encoding of one character. */
  function Utf8(c: char): (bytes: seq<Byte>)
    ensures 1 <= |bytes| <= 4
    ensures c as int < 0x80 ==> bytes == [c as int]
  {
    var n := c as int;
    if n < 0x80 then [n]
    else if n < 0x800 then [0xC0 + n / 64, 0x80 + n % 64]
    else if n < 0x10000 then [0xE0 + n / 4096, 0x80 + (n / 64) % 64, 0x80 + n % 64]
    else [0xF0 + n / 262144, 0x80 + (n / 4096) % 64, 0x80 + (n / 64) % 64, 0x80 + n % 64]
  }

  /** The UTF-8 encoding of a password: at least one byte per character. */
  function Utf8Encode(s: string): (bytes: seq<Byte>)
    ensures |bytes| >= |s|
  {
    if s == [] then [] else Utf8(s[0]) + Utf8Encode(s[1..])
  }

  /** Encoding distributes over concatenation. */
  lemma {:induction false} Utf8EncodeAppend(a: string, b: string)
    ensures Utf8Encode(a + b) == Utf8Encode(a) + Utf8Encode(b)
  {
    if a == [] {
      assert a + b == b;
    } else {
      assert (a + b)[1..] == a[1..] + b;
      Utf8EncodeAppend(a[1..], b);
    }
  }

  /** An ASCII password encodes to one byte per character. */
  lemma {:induction false} AsciiEncodeLength(s: string)
    requires forall i :: 0 <= i < |s| ==> s[i] as int < 0x80
    ensures |Utf8Encode(s)| == |s|
  {
    if s != [] {
      AsciiEncodeLength(s[1..]);
    }
  }

  /** The bytes bcrypt keys on: the first 72 bytes of the encoding. */
  function Key(password: string): (k: seq<Byte>)
    ensures k <= Utf8Encode(password)
    ensures |k| <= MaxKeyBytes
    ensures |Utf8Encode(password)| <= MaxKeyBytes ==> k == Utf8Encode(password)
    ensures |Utf8Encode(password)| > MaxKeyBytes ==> |k| == MaxKeyBytes
  {
    var bytes := Utf8Encode(password);
    if |bytes| <= MaxKeyBytes then bytes else bytes[..MaxKeyBytes]
  }

  /** The key as the tail of the hash string, one character per byte. */
  function Digest(password: string): (d: string)
    ensures |d| == |Key(password)|
    ensures forall i :: 0 <= i < |d| ==> d[i] as int == Key(password)[i]
  {
    var k := Key(password);
    seq(|k|, i requires 0 <= i < |k| => k[i] as char)
  }

  /**
   * Hashing yields a hash that verifies, and for every password shorter
   * than 101 characters (all the schemas let through) the hash differs
   * from the plaintext.
   */
  function Hash(password: string, salt: string): (h: string)
    requires IsSalt(salt)
    ensures Verify(password, h)
    ensures |password| < |Prefix| + SaltLength + MaxKeyBytes ==> h != password
  {
    var h := Prefix + salt + Digest(password);
    assert |h| == |Prefix| + SaltLength + |Key(password)|;
    h
  }

  /** The salt a well-formed hash was made with. */
  function SaltOf(h: string): string
    requires |h| >= |Prefix| + SaltLength
  {
    h[|Prefix|..|Prefix| + SaltLength]
  }

  /** `bcrypt.compare`: recompute the hash with the stored salt and compare. */
  predicate Verify(password: string, h: string) {
    |h| >= |Prefix| + SaltLength &&
    h == Prefix + SaltOf(h) + Digest(password)
  }

  /** Verification succeeds exactly for hashes made from that password. */
  lemma VerifyIffHashed(password: string, h: string)
    ensures Verify(password, h) <==> exists salt :: IsSalt(salt) && h == Hash(password, salt)
  {
    if Verify(password, h) {
      var salt := SaltOf(h);
      assert IsSalt(salt) && h == Hash(password, salt);
    }
  }

  /** A hash never verifies a password whose key differs from the hashed one's. */
  lemma VerifyRejectsOtherPasswords(password: string, other: string, salt: string)
    requires IsSalt(salt)
    requires Key(password) != Key(other)
    ensures !Verify(other, Hash(password, salt))
  {
  }

  /** A hash verifies every password with the same key. */
  lemma VerifyAcceptsSameKey(password: string, other: string, salt: string)
    requires IsSalt(salt)
    requires Key(password) == Key(other)
    ensures Verify(other, Hash(password, salt))
  {
    assert Digest(password) == Digest(other);
  }

  /** Two passwords whose encodings agree on the first 72 bytes verify against each other's hash. */
  lemma LaterBytesIgnored(password: string, other: string, salt: string)
    requires IsSalt(salt)
    requires |Utf8Encode(password)| >= MaxKeyBytes && |Utf8Encode(other)| >= MaxKeyBytes
    requires Utf8Encode(password)[..MaxKeyBytes] == Utf8Encode(other)[..MaxKeyBytes]
    ensures Verify(other, Hash(password, salt))
  {
    assert Key(password) == Utf8Encode(password)[..MaxKeyBytes];
    assert Key(other) == Utf8Encode(other)[..MaxKeyBytes];
    VerifyAcceptsSameKey(password, other, salt);
  }

  /** Bytes past the 72nd are ignored: 72 'a's then "X" and then "Y" share a hash. */
  lemma OnlyFirst72BytesCount(salt: string)
    requires IsSalt(salt)
    ensures Verify(seq(72, _ => 'a') + "Y", Hash(seq(72, _ => 'a') + "X", salt))
    ensures Key(seq(72, _ => 'a') + "Y") == Key(seq(72, _ => 'a') + "X") == Utf8Encode(seq(72, _ => 'a'))
  {
    var a: string := seq(72, _ => 'a');
    AsciiEncodeLength(a);
    Utf8EncodeAppend(a, "X");
    Utf8EncodeAppend(a, "Y");
    assert Utf8Encode(a + "X")[..MaxKeyBytes] == Utf8Encode(a);
    assert Utf8Encode(a + "Y")[..MaxKeyBytes] == Utf8Encode(a);
    LaterBytesIgnored(a + "X", a + "Y", salt);
  }
}
