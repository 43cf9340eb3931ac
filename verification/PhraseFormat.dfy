/**
 What a recovery phrase says, word by word (mnemonic/codec.rs, mnemonic/lang.rs): the codec described
 from the outside, by the numbers its words stand for and the place of its checksum word.
 */
module PhraseFormat {
  import opened Wrappers

  import opened HexText
  import opened WordText
  import opened ChainedTriples
  import opened Mnemonic

  // ---------- the list ----------

  /** The words of a language are what stands between the commas of its buffer. */
  lemma WordsOfBuffer(l: Language)
    ensures WithCommas(l.Words()) == l.buffer
    ensures forall k :: 0 <= k < |l.Words()| ==> ',' !in l.Words()[k]
  {
    SplitCommaExactly(l.buffer);
  }

  // ---------- numbers ----------

  /** The four bytes of eight hex digits, the first one least significant. */
  function LittleEndian(chunk: string): nat
    requires |chunk| == 8 && IsHex(chunk)
  {
    ParseHex(chunk[0..2]) + 0x100 * ParseHex(chunk[2..4])
    + 0x1_0000 * ParseHex(chunk[4..6]) + 0x100_0000 * ParseHex(chunk[6..8])
  }

  /** Swapping reverses the bytes. */
  lemma SwapReversesBytes(x: string)
    requires |x| == 8
    ensures var y := Swap(x);
            y[0..2] == x[6..8] && y[2..4] == x[4..6] && y[4..6] == x[2..4] && y[6..8] == x[0..2]
  {
  }

  lemma FourBytes(x: string)
    requires |x| == 8 && IsHex(x)
    ensures ParseHex(x) == ParseHex(x[6..8]) + 0x100 * ParseHex(x[4..6])
                           + 0x1_0000 * ParseHex(x[2..4]) + 0x100_0000 * ParseHex(x[0..2])
  {
    var a, b, c, d := x[0..2], x[2..4], x[4..6], x[6..8];
    assert x == ((a + b) + c) + d;
    assert Pow16(2) == 256;
    ParseConcat(a, b);
    ParseConcat(a + b, c);
    ParseConcat((a + b) + c, d);
  }

  /** So the number a swapped chunk is read as is the little-endian value of its bytes. */
  lemma NumeralOfSwap(x: string)
    requires |x| == 8 && IsHex(x)
    ensures ParseHex(Swap(x)) == LittleEndian(x)
  {
    hide ParseHex;
    SwapReversesBytes(x);
    FourBytes(Swap(x));
  }

  // ---------- the encoder ----------

  /** The three words of a number: each digit of it to the base of the list, offset by the word before. */
  ghost predicate Spells(list: seq<string>, x: nat, three: seq<string>)
    requires list != []
  {
    var n := |list|;
    var w1 := x % n;
    var w2 := (x / n + w1) % n;
    var w3 := (x / n / n + w2) % n;
    three == [list[w1], list[w2], list[w3]]
  }

  /** The first `n` characters of every word, shorter words whole. */
  function PrefixText(ws: seq<string>, n: nat): string {
    if ws == [] then [] else (if n <= |ws[0]| then ws[0][..n] else ws[0]) + PrefixText(ws[1..], n)
  }

  lemma {:induction false} PrefixTextIs(c: Codec, ws: seq<string>)
    ensures Concat(c.Prefixes(ws)) == PrefixText(ws, c.prefixLength)
  {
    if ws != [] {
      assert c.Prefixes(ws)[1..] == c.Prefixes(ws[1..]);
      PrefixTextIs(c, ws[1..]);
    }
  }

  /** The checksum word is the one at the CRC of all the prefixes, modulo the number of words. */
  lemma ChecksumPlace(l: Language, ws: seq<string>)
    requires ws != []
    ensures ChecksumIndex(CodecOf(l), ws) == l.crc(PrefixText(ws, l.prefixLength)) % |ws|
  {
    PrefixTextIs(CodecOf(l), ws);
  }

  lemma {:induction false} SwapAt(h: string, k: nat)
    requires IsChunked(h) && 8 * k + 8 <= |h|
    ensures SwapAll(h)[8 * k..8 * k + 8] == Swap(h[8 * k..8 * k + 8])
    decreases k
  {
    assert IsHex(h) ==> IsHex(h[..8]) && IsHex(h[8..]);
    var rest := SwapAll(h[8..]);
    assert SwapAll(h)[8..] == rest;
    if k == 0 {
      assert SwapAll(h)[0..8] == Swap(h[..8]);
      assert h[0..8] == h[..8];
    } else {
      SwapAt(h[8..], k - 1);
      assert h[8..][8 * (k - 1)..8 * (k - 1) + 8] == h[8 * k..8 * k + 8];
      assert rest[8 * (k - 1)..8 * (k - 1) + 8] == SwapAll(h)[8 * k..8 * k + 8];
    }
  }

  lemma {:induction false} WordsAt(c: Codec, s: string, k: nat)
    requires c.InBounds() && IsChunked(s) && 8 * k + 8 <= |s|
    ensures IsHex(s[8 * k..8 * k + 8])
    ensures AllChunkWords(c, s)[3 * k..3 * k + 3] == ChunkWords(c, s[8 * k..8 * k + 8])
    decreases k
  {
    hide ChunkWords;
    assert IsHex(s[8 * k..8 * k + 8]);
    var all, rest := AllChunkWords(c, s), AllChunkWords(c, s[8..]);
    assert all == ChunkWords(c, s[..8]) + rest;
    if k == 0 {
      assert s[0..8] == s[..8];
      assert all[0..3] == ChunkWords(c, s[..8]);
    } else {
      WordsAt(c, s[8..], k - 1);
      assert s[8..][8 * (k - 1)..8 * (k - 1) + 8] == s[8 * k..8 * k + 8];
      assert rest[3 * (k - 1)..3 * (k - 1) + 3] == all[3 * k..3 * k + 3];
    }
  }

  lemma NumberSpelled(l: Language, numeral: string)
    requires IsHex(numeral)
    ensures Spells(l.Words(), ParseHex(numeral), ChunkWords(CodecOf(l), numeral))
  {
    hide ParseHex, IsHex;
    assert CodecOf(l).numerals == ChainedNumerals(|l.Words()|) && CodecOf(l).words == l.Words();
  }

  /** Three words stand for each chunk: for the little-endian value of its four bytes. */
  lemma WordsOfChunk(l: Language, h: string, k: nat)
    requires Encodable(h) && 8 * k + 8 <= |h|
    ensures var body := AllChunkWords(CodecOf(l), SwapAll(h));
            Spells(l.Words(), LittleEndian(h[8 * k..8 * k + 8]), body[3 * k..3 * k + 3])
  {
    hide ParseHex, LittleEndian, AllChunkWords, SwapAll, Swap, ChunkWords, Spells, CodecOf;
    var chunk := h[8 * k..8 * k + 8];
    SwapAt(h, k);
    WordsAt(CodecOf(l), SwapAll(h), k);
    NumeralOfSwap(chunk);
    NumberSpelled(l, Swap(chunk));
  }

  /** Every four bytes of the text are spelled by the three words in their place. */
  ghost predicate SpellsText(l: Language, h: string, body: seq<string>)
    requires IsChunked(h) && |body| == |h| / 8 * 3
  {
    forall k: nat :: 8 * k + 8 <= |h| ==>
      IsHex(h[8 * k..8 * k + 8])
      && Spells(l.Words(), LittleEndian(h[8 * k..8 * k + 8]), body[3 * k..3 * k + 3])
  }

  /** The phrase: words, then the one of them that the CRC picks, with one blank between any two. */
  ghost predicate IsPhrase(l: Language, phrase: string, body: seq<string>)
    requires body != []
  {
    var p := l.crc(PrefixText(body, l.prefixLength)) % |body|;
    phrase == Join(body + [body[p]])
  }

  /**
   The phrase of a text: three words for every four bytes, spelling their little-endian value, and a
   checksum word.
   */
  lemma PhraseOfText(l: Language, h: string) returns (body: seq<string>)
    requires Encodable(h)
    ensures body != [] && |body| == |h| / 8 * 3
    ensures SpellsText(l, h, body) && IsPhrase(l, Encoded(CodecOf(l), h), body)
  {
    hide ParseHex, LittleEndian, AllChunkWords, SwapAll, Spells, ChecksumIndex;
    body := AllChunkWords(CodecOf(l), SwapAll(h));
    ChecksumPlace(l, body);
    forall k: nat | 8 * k + 8 <= |h|
      ensures IsHex(h[8 * k..8 * k + 8])
              && Spells(l.Words(), LittleEndian(h[8 * k..8 * k + 8]), body[3 * k..3 * k + 3])
    {
      WordsOfChunk(l, h, k);
    }
  }

  // ---------- the decoder ----------

  /** The word abbreviates the `i`-th of the list. */
  ghost predicate Abbreviates(l: Language, w: string, i: nat) {
    i < |l.Words()| && l.prefixLength <= |w| && l.prefixLength <= |l.Words()[i]|
    && w[..l.prefixLength] == l.Words()[i][..l.prefixLength]
  }

  lemma NumeralOfFixed(x: nat)
    ensures LittleEndian(Swap(FixedHex(x, 8))) == x % 0x1_0000_0000
  {
    hide ParseHex, FixedHex;
    var s := FixedHex(x, 8);
    NumeralOfSwap(Swap(s));
    SwapTwice(s);
    ParseFixedHex(x, 8);
    Pow16Of8();
  }

  /** The text of three abbreviations: four bytes in lower case, of the number's last eight digits, little-endian. */
  lemma TextOfTriple(l: Language, ws: seq<string>, k: nat, w1: nat, w2: nat, w3: nat)
    requires CodecOf(l).DistinctPrefixes() && k + 3 <= |ws|
    requires Abbreviates(l, ws[k], w1) && Abbreviates(l, ws[k + 1], w2) && Abbreviates(l, ws[k + 2], w3)
    ensures var n := |l.Words()|;
            var x := w1 + n * ((n - w1 + w2) % n) + n * n * ((n - w2 + w3) % n);
            var r := DecodeTriple(CodecOf(l), ws, k);
            r.Ok? && LittleEndian(r.value) == x % 0x1_0000_0000
            && forall i :: 0 <= i < 8 ==> LowerHexChar(r.value[i])
  {
    hide ParseHex, FixedHex, LittleEndian, Swap, DecodeTriple, Abbreviates;
    TripleNamed(l, ws, k, w1, w2, w3);
    var x := Value(|l.Words()|, w1, w2, w3);
    NumeralOfFixed(x);
    SwappedIsLower(x);
  }

  lemma TripleNamed(l: Language, ws: seq<string>, k: nat, w1: nat, w2: nat, w3: nat)
    requires CodecOf(l).DistinctPrefixes() && k + 3 <= |ws|
    requires Abbreviates(l, ws[k], w1) && Abbreviates(l, ws[k + 1], w2) && Abbreviates(l, ws[k + 2], w3)
    ensures w1 < |l.Words()| && w2 < |l.Words()| && w3 < |l.Words()|
    ensures DecodeTriple(CodecOf(l), ws, k) == Ok(Swap(FixedHex(Value(|l.Words()|, w1, w2, w3), 8)))
  {
    hide FixedHex, Swap, Value;
    var c, n := CodecOf(l), |l.Words()|;
    assert c.words == l.Words() && c.prefixLength == l.prefixLength && c.numerals == ChainedNumerals(n);
    assert Names(c, ws[k], w1) && Names(c, ws[k + 1], w2) && Names(c, ws[k + 2], w3);
    LookupNamed(c, ws, k, w1);
    LookupNamed(c, ws, k + 1, w2);
    LookupNamed(c, ws, k + 2, w3);
    GenericNeverFires(c, ws, k);
  }

  lemma SwappedIsLower(x: nat)
    ensures forall i :: 0 <= i < 8 ==> LowerHexChar(Swap(FixedHex(x, 8))[i])
  {
    FixedIsLower(x, 8);
  }

  lemma {:induction false} FixedIsLower(x: nat, k: nat)
    ensures forall i :: 0 <= i < k ==> LowerHexChar(FixedHex(x, k)[i])
  {
    if k > 0 {
      FixedIsLower(x / 16, k - 1);
      DigitCases(LowerDigit(x % 16));
    }
  }

  /** A word is known exactly if it abbreviates a listed word. */
  lemma KnownExactly(l: Language, w: string)
    requires CodecOf(l).DistinctPrefixes()
    ensures Known(CodecOf(l), w) <==> exists i :: Abbreviates(l, w, i)
  {
    var c := CodecOf(l);
    if Known(c, w) {
      LookupNamed(c, [w], 0, Lookup(c, [w], 0).value);
      assert Abbreviates(l, w, Lookup(c, [w], 0).value);
    }
    if i :| Abbreviates(l, w, i) {
      LookupNamed(c, [w], 0, i);
    }
  }

  /** Too few words, or no checksum word. */
  lemma CountErrors(c: Codec, words: seq<string>)
    requires c.Sound()
    ensures |words| < 12 ==> DecodedWords(c, words) == Err(InputTooShort)
    ensures |words| >= 12 && |words| % 3 == 0 ==> DecodedWords(c, words) == Err(MissingLastWord)
  {
  }

  /** The first word that is not known decides the error: too short a word panics, another is reported. */
  lemma {:induction false} FirstBadWord(c: Codec, ws: seq<string>, k: nat, i: nat)
    requires c.Good() && k <= i < |ws| && (i - k) / 3 * 3 + k + 3 <= |ws|
    requires forall j :: k <= j < i ==> Known(c, ws[j])
    requires !Known(c, ws[i])
    ensures DecodeFrom(c, ws, k) == Err(if |ws[i]| < c.prefixLength then OutOfBounds else UnknownWord)
    decreases |ws| - k
  {
    SameLookup(c, ws, k);
    SameLookup(c, ws, k + 1);
    SameLookup(c, ws, k + 2);
    if i >= k + 3 {
      GenericNeverFires(c, ws, k);
      assert DecodeTriple(c, ws, k).Ok?;
      FirstBadWord(c, ws, k + 3, i);
    }
  }

  lemma UnknownWordError(c: Codec, words: seq<string>, i: nat)
    requires c.Good() && |words| >= 13 && |words| % 3 == 1 && i < |words| - 1
    requires (forall j :: 0 <= j < i ==> Known(c, words[j])) && !Known(c, words[i])
    ensures DecodedWords(c, words) == Err(if |words[i]| < c.prefixLength then OutOfBounds else UnknownWord)
  {
    hide Known, DecodeFrom;
    var body := words[..|words| - 1];
    FirstBadWord(c, body, 0, i);
  }

  /** When all words are known, a last word that does not abbreviate the checksum word is an error of its own kind. */
  lemma ChecksumError(c: Codec, words: seq<string>)
    requires c.Good() && |words| >= 13 && |words| % 3 == 1
    requires forall i :: 0 <= i < |words| - 1 ==> Known(c, words[i])
    ensures |words[|words| - 1]| < c.prefixLength ==> DecodedWords(c, words) == Err(OutOfBounds)
    ensures var body, last := words[..|words| - 1], words[|words| - 1];
            var expected := body[ChecksumIndex(c, body)];
            c.prefixLength <= |expected|
            && (c.prefixLength <= |last| && expected[..c.prefixLength] != last[..c.prefixLength] ==>
                  DecodedWords(c, words) == Err(ChecksumMismatch))
  {
    hide DecodeFrom, ChecksumIndex;
    BodyDecodes(c, words, (|words| - 1) / 3, 0);
    var body := words[..|words| - 1];
    var p := ChecksumIndex(c, body);
    assert body[p] == words[p] && Known(c, words[p]);
  }

  // ---------- round trip of normal text ----------

  /** Lower-case text comes back as it is. */
  lemma LowerCaseRoundTrip(c: Codec, h: string)
    requires c.Good() && c.numerals.size >= FOUR_BYTES
    requires |h| >= 32 && |h| % 8 == 0 && forall i :: 0 <= i < |h| ==> LowerHexChar(h[i])
    ensures IsHex(h) && Decoded(c, Encoded(c, h)) == Ok(h)
  {
    forall i | 0 <= i < |h|
      ensures IsHexDigit(h[i])
    {
      assert LowerHexChar(h[i]);
    }
    LanguageRoundTrip(c, h);
    LowerIsLower(h);
  }
}
