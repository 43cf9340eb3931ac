/**
 The recovery phrase of an identity (identity.rs): a 32-byte seed printed in hex, encoded in words,
 and the way back, which pads a shorter seed with zero bytes (key/ed25519.rs).
 */
module SeedPhrase {
  import opened Wrappers

  import opened HexText
  import opened Mnemonic

  newtype byte = x: int | 0 <= x < 0x100

  const SEED_LENGTH: nat := 32

  /** `hex::encode` */
  function HexOfBytes(bytes: seq<byte>): (s: string)
    ensures |s| == 2 * |bytes| && IsHex(s)
  {
    if bytes == [] then []
    else [LowerDigit(bytes[0] as nat / 16), LowerDigit(bytes[0] as nat % 16)] + HexOfBytes(bytes[1..])
  }

  /** `hex::decode`; what the word decoder returns is always an even number of hex digits. */
  function BytesOfHex(s: string): (bytes: seq<byte>)
    requires IsHex(s) && |s| % 2 == 0
    ensures |bytes| == |s| / 2
  {
    if s == [] then []
    else [(DigitValue(s[0]) * 16 + DigitValue(s[1])) as byte] + BytesOfHex(s[2..])
  }

  /** `pad_ed25519_seed`; copying more than 32 bytes into the array panics. */
  function PaddedSeed(seed: seq<byte>): Result<seq<byte>, DecodeError> {
    if |seed| > SEED_LENGTH then Err(OutOfBounds)
    else Ok(seed + seq(SEED_LENGTH - |seed|, _ => 0 as byte))
  }

  lemma EvenDigits(s: string)
    requires IsChunked(s)
    ensures IsHex(s) && |s| % 2 == 0
  {
  }

  function PhraseOf(c: Codec, seed: seq<byte>): string
    requires c.Sound() && seed != [] && |seed| % 4 == 0
  {
    Encoded(c, HexOfBytes(seed))
  }

  function SeedOf(c: Codec, phrase: string): Result<seq<byte>, DecodeError>
    requires c.Sound()
  {
    match Decoded(c, phrase)
    case Err(e) => Err(e)
    case Ok(text) =>
      EvenDigits(text);
      PaddedSeed(BytesOfHex(text))
  }

  /** Two lower-case hex digits a byte, the first one the upper half. */
  lemma {:induction false} HexOfEachByte(bytes: seq<byte>, k: nat)
    requires k < |bytes|
    ensures var s := HexOfBytes(bytes);
            LowerHexChar(s[2 * k]) && LowerHexChar(s[2 * k + 1])
            && DigitValue(s[2 * k]) * 16 + DigitValue(s[2 * k + 1]) == bytes[k] as nat
  {
    hide LowerDigit, DigitValue, LowerHexChar, IsHexDigit;
    if k > 0 {
      HexOfEachByte(bytes[1..], k - 1);
    } else {
      DigitsOfByte(bytes[0] as nat);
    }
  }

  lemma DigitsOfByte(x: nat)
    requires x < 256
    ensures var high, low := LowerDigit(x / 16), LowerDigit(x % 16);
            IsHexDigit(high) && IsHexDigit(low) && LowerHexChar(high) && LowerHexChar(low)
            && DigitValue(high) * 16 + DigitValue(low) == x
  {
    hide LowerHexChar;
    DigitCases(LowerDigit(x / 16));
    DigitCases(LowerDigit(x % 16));
  }

  lemma ReadByte(a: char, b: char, rest: string)
    requires IsHexDigit(a) && IsHexDigit(b) && IsHex(rest) && |rest| % 2 == 0
    ensures var s := [a, b] + rest;
            IsHex(s) && |s| % 2 == 0
            && BytesOfHex(s) == [(DigitValue(a) * 16 + DigitValue(b)) as byte] + BytesOfHex(rest)
  {
    hide IsHexDigit, DigitValue;
    assert ([a, b] + rest)[2..] == rest;
  }

  lemma {:induction false} BytesThroughHex(bytes: seq<byte>)
    ensures BytesOfHex(HexOfBytes(bytes)) == bytes
  {
    hide DigitValue, LowerDigit, LowerHexChar, IsHexDigit, IsHex, BytesOfHex;
    if bytes == [] {
      ReadNothing();
    } else {
      var x := bytes[0] as nat;
      BytesThroughHex(bytes[1..]);
      DigitsOfByte(x);
      ReadByte(LowerDigit(x / 16), LowerDigit(x % 16), HexOfBytes(bytes[1..]));
    }
  }

  lemma ReadNothing()
    ensures BytesOfHex([]) == []
  {
  }

  lemma HexIsLower(bytes: seq<byte>)
    ensures Lower(HexOfBytes(bytes)) == HexOfBytes(bytes)
  {
    hide HexOfBytes, LowerHexChar;
    var s := HexOfBytes(bytes);
    forall i | 0 <= i < |s|
      ensures LowerHexChar(s[i])
    {
      HexOfEachByte(bytes, i / 2);
    }
    LowerIsLower(s);
  }

  /** A seed of 16 to 32 bytes survives its phrase, padded with zeros; a seed of 32 bytes survives as it is. */
  lemma SeedSurvives(c: Codec, seed: seq<byte>)
    requires c.Good() && c.numerals.size >= FOUR_BYTES && 16 <= |seed| <= 32 && |seed| % 4 == 0
    ensures SeedOf(c, PhraseOf(c, seed)) == Ok(seed + seq(32 - |seed|, _ => 0 as byte))
    ensures |seed| == 32 ==> SeedOf(c, PhraseOf(c, seed)) == Ok(seed)
  {
    BytesThroughHex(seed);
    HexIsLower(seed);
    LanguageRoundTrip(c, HexOfBytes(seed));
    if |seed| == SEED_LENGTH {
      assert seed + seq(SEED_LENGTH - |seed|, _ => 0 as byte) == seed;
    }
  }

  /** Different 32-byte seeds have different phrases. */
  lemma PhraseNamesOneSeed(c: Codec, a: seq<byte>, b: seq<byte>)
    requires c.Good() && c.numerals.size >= FOUR_BYTES && |a| == |b| == 32
    ensures PhraseOf(c, a) == PhraseOf(c, b) <==> a == b
  {
    SeedSurvives(c, a);
    SeedSurvives(c, b);
  }

  /** A phrase of more than 32 bytes panics. */
  lemma LongSeedsPanic(c: Codec, phrase: string)
    requires c.Sound() && Decoded(c, phrase).Ok? && |Decoded(c, phrase).value| > 64
    ensures SeedOf(c, phrase) == Err(OutOfBounds)
  {
    EvenDigits(Decoded(c, phrase).value);
  }
}
