/**
 ortoa-tee/src/libcommon/src/encryption_engine.cpp: the non-deterministic encoding of values.
 AES-256-CBC under the one fixed key is symbolic: Enc(p) is the ciphertext of p, Mangled(n)
 any n bytes that are not the ciphertext of anything.  What is not symbolic is the length.
 */
module EncryptionEngine {
  import opened Wrappers

  const SEPARATOR: char := '#'
  const NUL: char := '\0'
  const DIGITS: string := "0123456789"
  const RNG_MAX_LEN: int := 10

  datatype Cipher = Enc(plain: string) | Mangled(size: nat)

  // PKCS#7 (section 6.3 of RFC 5652): 1 to 16 bytes of padding up to a multiple of 16.
  function PaddedLength(n: nat): nat {
    16 * (n / 16 + 1)
  }

  function Length(c: Cipher): nat {
    match c
    case Enc(plain) => PaddedLength(|plain|)
    case Mangled(size) => size
  }

  // redisCli::get gives "" for a missing key.
  const EMPTY: Cipher := Mangled(0)

  /* ---------- extractKey and rand_str ---------- */

  // s without its last separator and what follows; all of s if there is none.
  function UpToLastSeparator(s: string): string {
    if s == [] then []
    else if s[|s| - 1] == SEPARATOR then s[..|s| - 1]
    else if SEPARATOR in s then UpToLastSeparator(s[..|s| - 1])
    else s
  }

  lemma {:induction false} SeparatorStays(s: string, i: nat)
    requires i < |s| && s[i] == SEPARATOR && forall j :: i < j < |s| ==> s[j] != SEPARATOR
    ensures UpToLastSeparator(s) == s[..i]
  {
    if i < |s| - 1 {
      SeparatorStays(s[..|s| - 1], i);
      assert s[..|s| - 1][..i] == s[..i];
    }
  }

  // The downward scan: what stands before the last separator, or all if there is none.
  method ExtractKey(encryptedKey: string) returns (key: string)
    ensures key == UpToLastSeparator(encryptedKey)
    ensures '#' !in encryptedKey ==> key == encryptedKey
    ensures forall i ::
              0 <= i < |encryptedKey| && encryptedKey[i] == '#' && '#' !in encryptedKey[i + 1..] ==>
              key == encryptedKey[..i]
  {
    forall i | 0 <= i < |encryptedKey| && encryptedKey[i] == '#' && '#' !in encryptedKey[i + 1..]
      ensures UpToLastSeparator(encryptedKey) == encryptedKey[..i]
    {
      assert forall j :: i < j < |encryptedKey| ==> encryptedKey[j] == encryptedKey[i + 1..][j - i - 1];
      SeparatorStays(encryptedKey, i);
    }
    var i := |encryptedKey| - 1;
    while i >= 0
      invariant -1 <= i < |encryptedKey|
      invariant forall j :: i < j < |encryptedKey| ==> encryptedKey[j] != SEPARATOR
    {
      if encryptedKey[i] == SEPARATOR {
        SeparatorStays(encryptedKey, i);
        return encryptedKey[..i];
      }
      i := i - 1;
    }
    return encryptedKey;
  }

  predicate AreDigits(s: string) {
    forall i :: 0 <= i < |s| ==> s[i] in DIGITS
  }

  // random(i) is the i-th number rand_uint32 draws.
  method RandStr(len: int, random: nat -> nat) returns (ret: string)
    ensures |ret| == if len > 0 then len else 0
    ensures AreDigits(ret)
    ensures forall i :: 0 <= i < |ret| ==> ret[i] == DIGITS[random(i) % 10]
  {
    ret := "";
    var i := 0;
    while i < len
      invariant i == |ret| && (len > 0 ==> i <= len) && (len <= 0 ==> i == 0)
      invariant AreDigits(ret)
      invariant forall j :: 0 <= j < |ret| ==> ret[j] == DIGITS[random(j) % 10]
    {
      ret := ret + [DIGITS[random(i) % 10]];
      i := i + 1;
    }
  }

  /* ---------- encoding ---------- */

  // The salt encryptNonDeterministic appends.
  predicate IsSalt(salt: string) {
    |salt| == RNG_MAX_LEN && AreDigits(salt)
  }

  function Encrypt(p: string, salt: string): Cipher {
    Enc(p + [SEPARATOR] + salt)
  }

  function SaltOf(random: nat -> nat): (salt: string)
    ensures IsSalt(salt)
  {
    seq(RNG_MAX_LEN, i requires 0 <= i => DIGITS[random(i) % 10])
  }

  // The character of a decimal digit.
  function Digit(d: nat): char
    requires d < 10
  {
    ('0' as int + d) as char
  }

  lemma DigitsInOrder(d: nat)
    requires d < 10
    ensures DIGITS[d] == Digit(d)
  {
    assert d == 0 || d == 1 || d == 2 || d == 3 || d == 4 || d == 5 || d == 6 || d == 7 || d == 8 || d == 9;
  }

  // The plaintext, a separator, and the last digits of the first ten numbers drawn.
  method EncryptNonDeterministic(p: string, random: nat -> nat) returns (c: Cipher)
    ensures c == Encrypt(p, SaltOf(random))
    ensures c.Enc? && |c.plain| == |p| + 11 && c.plain[..|p|] == p && c.plain[|p|] == '#'
    ensures forall i: nat :: i < 10 ==> c.plain[|p| + 1 + i] == Digit(random(i) % 10)
  {
    var salt := RandStr(RNG_MAX_LEN, random);
    assert salt == SaltOf(random);
    c := Enc(p + [SEPARATOR] + salt);
    forall i: nat | i < 10
      ensures c.plain[|p| + 1 + i] == Digit(random(i) % 10)
    {
      DigitsInOrder(random(i) % 10);
      assert c.plain[|p| + 1 + i] == salt[i];
    }
  }

  // Nothing of an encryption is lost in it: equal ciphertexts have equal parts.
  lemma EncryptIsInjective(p: string, salt: string, q: string, other: string)
    requires |salt| == |other|
    ensures Encrypt(p, salt) == Encrypt(q, other) <==> p == q && salt == other
  {
    var a, b := p + [SEPARATOR] + salt, q + [SEPARATOR] + other;
    if a == b {
      assert |p| == |q|;
      assert p == a[..|p|] && q == b[..|q|];
      assert salt == a[|p| + 1..] && other == b[|q| + 1..];
    }
  }

  lemma SaltsAgreeIff(random: nat -> nat, other: nat -> nat)
    ensures SaltOf(random) == SaltOf(other) <==> forall i: nat :: i < 10 ==> random(i) % 10 == other(i) % 10
  {
    forall i: nat | i < 10
      ensures SaltOf(random)[i] == SaltOf(other)[i] <==> random(i) % 10 == other(i) % 10
    {
      DigitsInOrder(random(i) % 10);
      DigitsInOrder(other(i) % 10);
    }
  }

  // Two encryptions are equal exactly if they are of the same plaintext and the ten numbers
  // drawn for each agree in their last digits.
  lemma EncryptionsAgreeIff(p: string, random: nat -> nat, q: string, other: nat -> nat)
    ensures Encrypt(p, SaltOf(random)) == Encrypt(q, SaltOf(other))
            <==> p == q && forall i: nat :: i < 10 ==> random(i) % 10 == other(i) % 10
  {
    EncryptIsInjective(p, SaltOf(random), q, SaltOf(other));
    SaltsAgreeIff(random, other);
  }

  // std::find(text, text + text_len, '\0').
  function BeforeNul(s: string): (r: string)
    ensures r <= s && NUL !in r
    ensures r == s <==> NUL !in s
    ensures NUL in s ==> |r| < |s| && s[|r|] == '\0'
  {
    if s == [] then []
    else if s[0] == NUL then []
    else [s[0]] + BeforeNul(s[1..])
  }

  // None: OpenSSL rejects the bytes, or the plaintext is empty; both abort the enclave.
  function Decrypt(c: Cipher): Option<string> {
    if c.Enc? && c.plain != [] then Some(UpToLastSeparator(BeforeNul(c.plain))) else None
  }

  method DecryptNonDeterministic(c: Cipher) returns (p: Option<string>)
    ensures p == Decrypt(c)
    ensures p.Some? <==> c.Enc? && |c.plain| > 0
    ensures p.Some? && '#' !in c.plain && '\0' !in c.plain ==> p.value == c.plain
  {
    if c.Mangled? || |c.plain| == 0 {
      return None;
    }
    var key := ExtractKey(BeforeNul(c.plain));
    return Some(key);
  }

  lemma {:induction false} BeforeNulOfSum(a: string, b: string)
    ensures BeforeNul(a + b) == if NUL in a then BeforeNul(a) else a + BeforeNul(b)
  {
    if a == [] {
      assert a + b == b;
    } else {
      assert (a + b)[1..] == a[1..] + b;
      BeforeNulOfSum(a[1..], b);
    }
  }

  lemma DigitsAreOrdinary(s: string)
    requires AreDigits(s)
    ensures SEPARATOR !in s && NUL !in s
  {}

  lemma {:induction false} UpToLastSeparatorIsPrefix(s: string)
    ensures UpToLastSeparator(s) <= s
  {
    if s != [] && s[|s| - 1] != SEPARATOR && SEPARATOR in s {
      UpToLastSeparatorIsPrefix(s[..|s| - 1]);
    }
  }

  lemma TailHasNoNul(salt: string)
    requires AreDigits(salt)
    ensures NUL !in [SEPARATOR] + salt && BeforeNul([SEPARATOR] + salt) == [SEPARATOR] + salt
  {
    DigitsAreOrdinary(salt);
  }

  lemma LastSeparatorIsTheAddedOne(p: string, salt: string)
    requires AreDigits(salt)
    ensures UpToLastSeparator(p + ([SEPARATOR] + salt)) == p
  {
    DigitsAreOrdinary(salt);
    var s := p + ([SEPARATOR] + salt);
    assert forall j :: |p| < j < |s| ==> s[j] == salt[j - |p| - 1];
    SeparatorStays(s, |p|);
  }

  // What decryption recovers, for every plaintext.
  lemma DecryptEncrypt(p: string, salt: string)
    requires IsSalt(salt)
    ensures Decrypt(Encrypt(p, salt)) == Some(if NUL in p then UpToLastSeparator(BeforeNul(p)) else p)
  {
    var tail := [SEPARATOR] + salt;
    assert Encrypt(p, salt).plain == p + tail;
    TailHasNoNul(salt);
    BeforeNulOfSum(p, tail);
    LastSeparatorIsTheAddedOne(p, salt);
  }

  // The round trip holds exactly of the plaintexts without a NUL byte; a separator does no harm.
  lemma RoundTripIffNoNul(p: string, salt: string)
    requires IsSalt(salt)
    ensures Decrypt(Encrypt(p, salt)) == Some(p) <==> NUL !in p
  {
    DecryptEncrypt(p, salt);
    if NUL in p {
      UpToLastSeparatorIsPrefix(BeforeNul(p));
      assert |BeforeNul(p)| < |p|;
    }
  }

  lemma DecryptedHasNoNul(c: Cipher)
    requires Decrypt(c).Some?
    ensures NUL !in Decrypt(c).value && |Decrypt(c).value| <= |c.plain|
  {
    UpToLastSeparatorIsPrefix(BeforeNul(c.plain));
  }

  /* ---------- re-encryption ---------- */

  // What the enclave makes of a GET, with any salts, any number of times.
  function Reencrypt(c: Cipher, salts: seq<string>): Option<Cipher> {
    if salts == [] then Some(c)
    else
      var before := Reencrypt(c, salts[..|salts| - 1]);
      if before.None? || Decrypt(before.value).None? then None
      else Some(Encrypt(Decrypt(before.value).value, salts[|salts| - 1]))
  }

  // No chain of GETs changes the value of a ciphertext that decrypts at all; what it leaves is
  // an encryption with the last salt.
  lemma {:induction false} ReencryptionKeepsTheValue(c: Cipher, salts: seq<string>)
    requires Decrypt(c).Some?
    requires forall i :: 0 <= i < |salts| ==> IsSalt(salts[i])
    ensures Reencrypt(c, salts).Some? && Decrypt(Reencrypt(c, salts).value) == Decrypt(c)
    ensures salts != [] ==> Reencrypt(c, salts).value == Encrypt(Decrypt(c).value, salts[|salts| - 1])
  {
    if salts != [] {
      ReencryptionKeepsTheValue(c, salts[..|salts| - 1]);
      DecryptedHasNoNul(c);
      DecryptEncrypt(Decrypt(c).value, salts[|salts| - 1]);
    }
  }

  /* ---------- lengths ---------- */

  function EncryptedLength(p: string): nat {
    PaddedLength(|p| + 11)
  }

  lemma PaddedLengthIsMonotone(a: nat, b: nat)
    requires a <= b
    ensures PaddedLength(a) <= PaddedLength(b)
  {}

  // The length of an encryption: whole blocks, 1 to 16 bytes more than the salted plaintext;
  // and when it fits the 4096-byte buffers.
  lemma EncryptionFitsBufferIff(p: string, salt: string)
    requires IsSalt(salt)
    ensures Length(Encrypt(p, salt)) % 16 == 0 && |p| + 11 < Length(Encrypt(p, salt)) <= |p| + 27
    ensures Length(Encrypt(p, salt)) == 16 * ((|p| + 11) / 16 + 1) == EncryptedLength(p)
    ensures Length(Encrypt(p, salt)) <= 4096 <==> |p| <= 4084
  {
    assert |p + [SEPARATOR] + salt| == |p| + 11;
  }

  // One encryption fits where another one was exactly if their plaintexts, with the salt,
  // fill no more blocks.
  lemma EncryptionFitsIff(p: string, salt: string, q: string, other: string)
    requires IsSalt(salt) && IsSalt(other)
    ensures Length(Encrypt(q, other)) <= Length(Encrypt(p, salt)) <==> (|q| + 11) / 16 <= (|p| + 11) / 16
    ensures Length(Encrypt(q, other)) == Length(Encrypt(p, salt)) <==> (|q| + 11) / 16 == (|p| + 11) / 16
  {
    EncryptionFitsBufferIff(p, salt);
    EncryptionFitsBufferIff(q, other);
  }

  lemma DecryptedIsNoLonger(p: string, salt: string)
    requires IsSalt(salt)
    ensures Decrypt(Encrypt(p, salt)).Some?
    ensures |Decrypt(Encrypt(p, salt)).value| <= |p|
    ensures NUL !in p ==> Decrypt(Encrypt(p, salt)).value == p
  {
    DecryptEncrypt(p, salt);
    UpToLastSeparatorIsPrefix(BeforeNul(p));
  }

  // A GET's output is never longer than the encryption it was asked to renew, and exactly as
  // long if the value has no NUL byte.
  lemma GetFitsStoredLength(p: string, salt: string, newSalt: string)
    requires IsSalt(salt) && IsSalt(newSalt)
    ensures var c := Encrypt(p, salt);
            && Decrypt(c).Some?
            && Length(Encrypt(Decrypt(c).value, newSalt)) <= Length(c)
            && (NUL !in p ==> Length(Encrypt(Decrypt(c).value, newSalt)) == Length(c))
  {
    DecryptedIsNoLonger(p, salt);
    var q := Decrypt(Encrypt(p, salt)).value;
    EncryptionFitsBufferIff(p, salt);
    EncryptionFitsBufferIff(q, newSalt);
    PaddedLengthIsMonotone(|q| + 11, |p| + 11);
  }
}
