/** Verification-code issuing (server/email.ts): the code is three random bytes
    written as hex and upper-cased; the expiry is ten minutes after issuing.
    The random bytes and the clock (milliseconds since the epoch) are parameters. */
module Email {
  import opened Hex

  const CodeBytes: nat := 3
  const CodeLength: nat := 6
  /** Ten minutes, in the millisecond resolution of a JavaScript `Date`. */
  const ExpiryWindowMs: int := 10 * 60 * 1000

  predicate IsVerificationCode(code: string) {
    |code| == CodeLength && forall i :: 0 <= i < |code| ==> IsUpperHexChar(code[i])
  }

  /** `randomBytes(3).toString('hex').toUpperCase()`. */
  function GenerateVerificationCode(random: seq<byte>): (code: string)
    requires |random| == CodeBytes
    ensures IsVerificationCode(code)
  {
    var hex := ToHex(random);
    var code := ToUpper(hex);
    assert forall i :: 0 <= i < |code| ==> IsUpperHexChar(code[i]) by {
      forall i | 0 <= i < |code| ensures IsUpperHexChar(code[i]) {
        assert IsLowerHexChar(hex[i]);
      }
    }
    code
  }

  /** The three bytes a code was made from, read back as `Buffer.from(code, "hex")`. */
  function DecodeVerificationCode(code: string): seq<byte> {
    FromHex(code)
  }

  /** Decoding a generated code gives back its random bytes. */
  lemma DecodeGenerated(random: seq<byte>)
    requires |random| == CodeBytes
    ensures DecodeVerificationCode(GenerateVerificationCode(random)) == random
  {
    FromHexUpperToHex(random);
  }

  /** Distinct random bytes give distinct codes. */
  lemma GenerateInjective(a: seq<byte>, b: seq<byte>)
    requires |a| == CodeBytes && |b| == CodeBytes
    ensures GenerateVerificationCode(a) == GenerateVerificationCode(b) ==> a == b
  {
    DecodeGenerated(a);
    DecodeGenerated(b);
  }

  /** `getVerificationExpiry()` with the clock reading `issuedAt`: a `Date` moved
      ten minutes forward. */
  function VerificationExpiry(issuedAt: int): (expiry: int)
    ensures expiry > issuedAt
  {
    issuedAt + ExpiryWindowMs
  }
}
