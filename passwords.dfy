/** The stored password format of server/auth.ts: `hashPassword` writes
    `hex(scrypt(password, salt, 64)) + "." + salt`, where salt is the hex of 16
    random bytes, and `comparePasswords` splits that form at "." and re-derives
    the digest. scrypt is the parameter `kdf`: any deterministic function of the
    password and the salt text. */
module Passwords {
  import opened Wrappers
  import opened Hex

  type Kdf = (string, string) -> seq<byte>

  const DigestBytes: nat := 64
  const SaltBytes: nat := 16

  /** scrypt with key length 64 always yields 64 bytes. */
  ghost predicate ValidKdf(kdf: Kdf) {
    forall password: string, salt: string :: |kdf(password, salt)| == DigestBytes
  }

  /** The first index of `sep` in `s`. */
  function IndexOf(s: string, sep: char): (i: nat)
    requires sep in s
    ensures i < |s| && s[i] == sep && sep !in s[..i]
  {
    if s[0] == sep then 0 else 1 + IndexOf(s[1..], sep)
  }

  /** The pieces joined with `sep` between them, as `parts.join(sep)` writes them. */
  function Join(parts: seq<string>, sep: char): string
    requires |parts| >= 1
  {
    if |parts| == 1 then parts[0] else parts[0] + [sep] + Join(parts[1..], sep)
  }

  /** JavaScript's `s.split(sep)` for a one-character separator: the pieces between
      separators, in order. There is one more piece than there are separators, so a
      single piece exactly when `sep` does not occur; no piece holds `sep`, and joining
      the pieces with `sep` gives back `s`. */
  function Split(s: string, sep: char): (parts: seq<string>)
    ensures |parts| >= 1
    ensures |parts| == 1 <==> sep !in s
    ensures forall k :: 0 <= k < |parts| ==> sep !in parts[k]
    ensures Join(parts, sep) == s
    decreases |s|
  {
    if sep !in s then [s]
    else
      var i := IndexOf(s, sep);
      var rest := Split(s[i + 1..], sep);
      var parts := [s[..i]] + rest;
      assert parts[1..] == rest;
      assert s == s[..i] + [sep] + s[i + 1..];
      parts
  }

  /** `hashPassword(password)` with `randomBytes(16)` = `random`. */
  function HashPassword(kdf: Kdf, password: string, random: seq<byte>): (stored: string)
    requires |random| == SaltBytes
    ensures |stored| == 2 * |kdf(password, ToHex(random))| + 1 + 2 * SaltBytes
    ensures stored[2 * |kdf(password, ToHex(random))|] == '.'
  {
    var salt := ToHex(random);
    ToHex(kdf(password, salt)) + "." + salt
  }

  /** Why `comparePasswords` throws: the stored form has no "." (scrypt is handed an
      undefined salt), or the stored digest decodes to a different byte length than
      the derived one (`timingSafeEqual` rejects buffers of unequal length). */
  datatype CompareError = MissingSalt | LengthMismatch(storedBytes: nat, derivedBytes: nat)

  /** `comparePasswords(supplied, stored)`: true for a matching digest, false for a
      different one of the same length, an error where the source throws. */
  function ComparePasswords(kdf: Kdf, supplied: string, stored: string): (r: Result<bool, CompareError>)
    ensures r.Success? ==> '.' in stored
    ensures r == Success(true) ==> FromHex(Split(stored, '.')[0]) == kdf(supplied, Split(stored, '.')[1])
    ensures '.' !in stored ==> r == Failure(MissingSalt)
    ensures '.' in stored ==>
      var hashed, derived := FromHex(Split(stored, '.')[0]), kdf(supplied, Split(stored, '.')[1]);
      && (|hashed| == |derived| ==> r == Success(hashed == derived))
      && (|hashed| != |derived| ==> r == Failure(LengthMismatch(|hashed|, |derived|)))
  {
    var parts := Split(stored, '.');
    var hashed := FromHex(parts[0]);
    if |parts| < 2 then Failure(MissingSalt)
    else
      var derived := kdf(supplied, parts[1]);
      if |hashed| != |derived| then Failure(LengthMismatch(|hashed|, |derived|))
      else Success(hashed == derived)
  }

  lemma SplitTwo(a: string, sep: char, b: string)
    requires sep !in a && sep !in b
    ensures Split(a + [sep] + b, sep) == [a, b]
  {
    var s := a + [sep] + b;
    assert s[|a|] == sep;
    var i := IndexOf(s, sep);
    assert i == |a| by {
      assert forall k :: 0 <= k < |a| ==> s[k] == a[k];
      assert i <= |a| ==> s[..i] == a[..i];
    }
    assert s[..i] == a;
    assert s[i + 1..] == b;
  }

  lemma NoDotInHex(bytes: seq<byte>)
    ensures '.' !in ToHex(bytes)
  {
    var h := ToHex(bytes);
    assert forall k :: 0 <= k < |h| ==> h[k] != '.';
  }

  /** The stored form is a 128-digit lower-case hex digest of `kdf(password, salt)`,
      a ".", and the 32-digit lower-case hex salt; splitting at "." recovers both. */
  lemma HashPasswordFormat(kdf: Kdf, password: string, random: seq<byte>)
    requires ValidKdf(kdf) && |random| == SaltBytes
    ensures var parts := Split(HashPassword(kdf, password, random), '.');
      && parts == [ToHex(kdf(password, ToHex(random))), ToHex(random)]
      && |parts[0]| == 2 * DigestBytes && |parts[1]| == 2 * SaltBytes
      && (forall i :: 0 <= i < |parts[0]| ==> IsLowerHexChar(parts[0][i]))
      && (forall i :: 0 <= i < |parts[1]| ==> IsLowerHexChar(parts[1][i]))
  {
    var salt := ToHex(random);
    var digest := ToHex(kdf(password, salt));
    NoDotInHex(kdf(password, salt));
    NoDotInHex(random);
    SplitTwo(digest, '.', salt);
  }

  /** Comparing against a stored form succeeds exactly when the KDF gives the same
      digest for the supplied password under that salt, and never throws. */
  lemma CompareAgainstHash(kdf: Kdf, supplied: string, password: string, random: seq<byte>)
    requires ValidKdf(kdf) && |random| == SaltBytes
    ensures ComparePasswords(kdf, supplied, HashPassword(kdf, password, random))
      == Success(kdf(supplied, ToHex(random)) == kdf(password, ToHex(random)))
  {
    HashPasswordFormat(kdf, password, random);
    FromHexToHex(kdf(password, ToHex(random)));
  }

  /** `comparePasswords(p, hashPassword(p))` is true. */
  lemma HashThenCompare(kdf: Kdf, password: string, random: seq<byte>)
    requires ValidKdf(kdf) && |random| == SaltBytes
    ensures ComparePasswords(kdf, password, HashPassword(kdf, password, random)) == Success(true)
  {
    CompareAgainstHash(kdf, password, password, random);
  }

  /** Only the KDF output is stored: the digest part is the hex of `kdf(password, salt)`,
      so it differs from the password unless the password is itself a 128-digit
      lower-case hex string. */
  lemma DigestIsNotPlaintext(kdf: Kdf, password: string, random: seq<byte>)
    requires ValidKdf(kdf) && |random| == SaltBytes
    requires |password| != 2 * DigestBytes || exists i :: 0 <= i < |password| && !IsLowerHexChar(password[i])
    ensures Split(HashPassword(kdf, password, random), '.')[0] != password
  {
    HashPasswordFormat(kdf, password, random);
  }
}
