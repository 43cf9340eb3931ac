/**
 The recovery phrase codec (mnemonic/codec.rs, mnemonic/lang.rs). Text is ASCII, one character a
 byte. A language is its comma-separated word buffer, its prefix length and the CRC-32 of a text,
 which stays an arbitrary function.
 */
module Mnemonic {
  import opened Wrappers

  import opened HexText
  import opened WordText
  import opened ChainedTriples

  datatype DecodeError =
    | InputTooShort
    | MissingLastWord
    | UnknownWord
    | Generic
    | ChecksumMismatch
    | OutOfBounds  // the slicing or indexing panic

  // ---------- the language ----------

  datatype Language = Language(buffer: string, prefixLength: nat, crc: string -> nat) {
    function Words(): (ws: seq<string>)
      ensures |ws| > 0
    {
      SplitComma(buffer)
    }
  }

  /** A language together with the numerals its words are the digits of. */
  datatype Codec = Codec(
    words: seq<string>,
    prefixLength: nat,
    pick: (string, nat) -> nat,  // the checksum word's place among so many words
    numerals: Numerals)
  {
    function Prefix(w: string): string {
      if prefixLength <= |w| then w[..prefixLength] else w
    }

    function Prefixes(ws: seq<string>): (ps: seq<string>)
      ensures |ps| == |ws| && forall i :: 0 <= i < |ws| ==> ps[i] == Prefix(ws[i])
    {
      seq(|ws|, i requires 0 <= i < |ws| => Prefix(ws[i]))
    }

    /** Every number splits into numbers of words. */
    ghost predicate InBounds() {
      forall x: nat :: numerals.split(x).0 < |words| && numerals.split(x).1 < |words| && numerals.split(x).2 < |words|
    }

    ghost predicate Sound() {
      && InBounds()
      && Bijective(numerals) && numerals.base == |words|
      && forall s, n: nat :: n > 0 ==> pick(s, n) < n
    }

    /** Non-empty prefixes that are all different, each inside the part of its word without white space. */
    ghost predicate DistinctPrefixes() {
      prefixLength > 0 && AllWords(words, prefixLength) && NoDuplicates(Prefixes(words))
    }

    ghost predicate Good() {
      Sound() && DistinctPrefixes()
    }
  }

  ghost predicate AllWords(ws: seq<string>, prefixLength: nat) {
    ws == [] || (IsWord(ws[0]) && prefixLength <= |Core(ws[0])| && AllWords(ws[1..], prefixLength))
  }

  ghost predicate NoDuplicates(ws: seq<string>) {
    ws == [] || (ws[0] !in ws[1..] && NoDuplicates(ws[1..]))
  }

  lemma {:induction false} WordIsWord(ws: seq<string>, prefixLength: nat, i: nat)
    requires AllWords(ws, prefixLength) && i < |ws|
    ensures IsWord(ws[i]) && prefixLength <= |Core(ws[i])|
  {
    if i > 0 {
      WordIsWord(ws[1..], prefixLength, i - 1);
    }
  }

  lemma {:induction false} NoDuplicate(ws: seq<string>, i: nat, j: nat)
    requires NoDuplicates(ws) && i < |ws| && j < |ws|
    ensures ws[i] == ws[j] <==> i == j
  {
    if i > 0 && j > 0 {
      NoDuplicate(ws[1..], i - 1, j - 1);
    } else if i > 0 {
      assert ws[i] == ws[1..][i - 1];
    } else if j > 0 {
      assert ws[j] == ws[1..][j - 1];
    }
  }

  function CodecOf(l: Language): (c: Codec)
    ensures c.Sound()
  {
    var ws := l.Words();
    ChainedNumeralsAreBijective(|ws|);
    Codec(ws, l.prefixLength,
          (s: string, n: nat) => if n == 0 then 0 else l.crc(s) % n,
          ChainedNumerals(|ws|))
  }

  // ---------- encoding ----------

  function Swap(x: string): (y: string)
    requires |x| == 8
    ensures |y| == 8 && (IsHex(x) ==> IsHex(y))
  {
    x[6..8] + x[4..6] + x[2..4] + x[0..2]
  }

  lemma SwapTwice(x: string)
    requires |x| == 8
    ensures Swap(Swap(x)) == x
  {
    var y := Swap(x);
    assert y[6..8] == x[0..2] && y[4..6] == x[2..4] && y[2..4] == x[4..6] && y[0..2] == x[6..8];
    assert x == x[0..2] + x[2..4] + x[4..6] + x[6..8];
  }

  function SwapAll(h: string): (s: string)
    requires |h| % 8 == 0
    ensures |s| == |h| && (IsHex(h) ==> IsHex(s))
  {
    if h == [] then []
    else
      assert IsHex(h) ==> IsHex(h[..8]) && IsHex(h[8..]);
      Swap(h[..8]) + SwapAll(h[8..])
  }

  predicate IsChunked(s: string) {
    |s| % 8 == 0 && IsHex(s)
  }

  lemma ChunkedConcat(a: string, b: string)
    requires IsChunked(a) && IsChunked(b)
    ensures IsChunked(a + b)
  {
  }

  /** What the encoder accepts without panicking. */
  predicate Encodable(h: string) {
    h != [] && IsChunked(h)
  }

  /** The three words of an eight-digit numeral. */
  function ChunkWords(c: Codec, chunk: string): (ws: seq<string>)
    requires c.InBounds() && IsHex(chunk)
    ensures |ws| == 3
  {
    var w := c.numerals.split(ParseHex(chunk));
    [c.words[w.0], c.words[w.1], c.words[w.2]]
  }

  function AllChunkWords(c: Codec, s: string): (ws: seq<string>)
    requires c.InBounds() && IsChunked(s)
    ensures |ws| == |s| / 8 * 3
  {
    if s == [] then [] else ChunkWords(c, s[..8]) + AllChunkWords(c, s[8..])
  }

  function ChecksumIndex(c: Codec, ws: seq<string>): (i: nat)
    requires c.Sound() && ws != []
    ensures i < |ws|
  {
    c.pick(Concat(c.Prefixes(ws)), |ws|)
  }

  function WithChecksum(c: Codec, ws: seq<string>): seq<string>
    requires c.Sound() && ws != []
  {
    ws + [ws[ChecksumIndex(c, ws)]]
  }

  function Encoded(c: Codec, h: string): string
    requires c.Sound() && Encodable(h)
  {
    Join(WithChecksum(c, AllChunkWords(c, SwapAll(h))))
  }

  lemma SliceStep(s: string, start: nat)
    requires start + 8 <= |s|
    ensures s[start..][..8] == s[start..start + 8] && s[start..][8..] == s[start + 8..]
  {
  }

  /** One round of the first loop of `EncodeIn`. */
  lemma SwapStep(h: string, text: string, start: nat)
    requires IsChunked(h) && start % 8 == 0 && start < |h| == |text|
    requires IsHex(text) && text[start..] == h[start..]
    ensures var next := text[..start] + Swap(text[start..start + 8]) + text[start + 8..];
            |next| == |text| && IsHex(next) && next[start + 8..] == h[start + 8..]
            && next[..start + 8] + SwapAll(h[start + 8..]) == text[..start] + SwapAll(h[start..])
  {
    var chunk, rest := text[start..start + 8], h[start + 8..];
    assert chunk == h[start..][..8] && h[start..][8..] == rest == text[start + 8..];
    var next := text[..start] + Swap(chunk) + rest;
    assert next[..start + 8] == text[..start] + Swap(chunk);
    assert SwapAll(h[start..]) == Swap(chunk) + SwapAll(rest);
  }

  method Encode(h: string, l: Language) returns (phrase: string)
    requires Encodable(h)
    ensures phrase == Encoded(CodecOf(l), h)
  {
    phrase := EncodeIn(h, CodecOf(l));
  }

  method EncodeIn(h: string, c: Codec) returns (phrase: string)
    requires c.Sound() && Encodable(h)
    ensures phrase == Encoded(c, h)
  {
    var text := SwapChunks(h);
    var result := TranslateChunks(text, c);
    var checksumWord := result[ChecksumIndex(c, result)];
    result := result + [checksumWord];
    phrase := Join(result);
  }

  /** The first loop of `encode`. */
  method SwapChunks(h: string) returns (text: string)
    requires IsChunked(h)
    ensures text == SwapAll(h)
  {
    text := h;
    var start := 0;
    while start < |h|
      invariant start % 8 == 0 && start <= |h| == |text|
      invariant text[start..] == h[start..] && IsHex(text)
      invariant text[..start] + SwapAll(h[start..]) == SwapAll(h)
    {
      SwapStep(h, text, start);
      var end := start + 8;
      var p1, p2, p3 := text[..start], Swap(text[start..end]), text[end..];
      text := p1 + p2 + p3;
      start := end;
    }
    assert h[start..] == [] && text[..start] == text;
  }

  /** One round of the second loop. */
  lemma TranslateStep(c: Codec, text: string, start: nat)
    requires c.InBounds() && IsChunked(text) && start % 8 == 0 && start < |text|
    ensures (start + 8) % 8 == 0 && start + 8 <= |text|
    ensures IsHex(text[start..start + 8]) && IsChunked(text[start + 8..]) && IsChunked(text[start..])
    ensures AllChunkWords(c, text[start..]) ==
            ChunkWords(c, text[start..start + 8]) + AllChunkWords(c, text[start + 8..])
  {
    SliceStep(text, start);
  }

  /** The second loop of `encode`. */
  method TranslateChunks(text: string, c: Codec) returns (result: seq<string>)
    requires c.InBounds() && IsChunked(text)
    ensures result == AllChunkWords(c, text)
  {
    result := [];
    var start := 0;
    assert text[0..] == text;
    while start < |text|
      invariant start % 8 == 0 && start <= |text|
      invariant IsChunked(text[start..])
      invariant result + AllChunkWords(c, text[start..]) == AllChunkWords(c, text)
    {
      TranslateStep(c, text, start);
      var three := ChunkWords(c, text[start..start + 8]);
      assert result + (three + AllChunkWords(c, text[start + 8..]))
          == (result + three) + AllChunkWords(c, text[start + 8..]);
      result := result + three;
      start := start + 8;
    }
  }

  // ---------- decoding ----------

  /** The first position from `i` on at which `ws` holds `w`. */
  function Position(ws: seq<string>, w: string, i: nat): (p: Option<nat>)
    ensures p.Some? ==> i <= p.value < |ws|
    decreases |ws| - i
  {
    if i >= |ws| then None else if ws[i] == w then Some(i) else Position(ws, w, i + 1)
  }

  /** The number of the `k`-th word; reading past the words or past a short word panics. */
  function Lookup(c: Codec, ws: seq<string>, k: nat): (r: Result<nat, DecodeError>)
    ensures r.Ok? ==> r.value < |c.words|
  {
    if k >= |ws| || |ws[k]| < c.prefixLength then Err(OutOfBounds)
    else match Position(c.Prefixes(c.words), ws[k][..c.prefixLength], 0)
      case None => Err(UnknownWord)
      case Some(i) => Ok(i)
  }

  /** The text of the three words from the `k`-th on: the last eight characters of "0000000{:x}", swapped. */
  function DecodeTriple(c: Codec, ws: seq<string>, k: nat): (r: Result<string, DecodeError>)
    ensures r.Ok? ==> |r.value| == 8 && IsHex(r.value)
  {
    var w1 :- Lookup(c, ws, k);
    var w2 :- Lookup(c, ws, k + 1);
    var w3 :- Lookup(c, ws, k + 2);
    var x := c.numerals.join(w1, w2, w3);
    if c.numerals.lowest(x) != w1 then Err(Generic) else Ok(Swap(FixedHex(x, 8)))
  }

  function DecodeFrom(c: Codec, ws: seq<string>, k: nat): (r: Result<string, DecodeError>)
    ensures r.Ok? ==> IsChunked(r.value)
    decreases |ws| - k
  {
    if k >= |ws| then Ok([])
    else
      var first :- DecodeTriple(c, ws, k);
      var rest :- DecodeFrom(c, ws, k + 3);
      ChunkedConcat(first, rest);
      Ok(first + rest)
  }

  function DecodedWords(c: Codec, words: seq<string>): (r: Result<string, DecodeError>)
    requires c.Sound()
    ensures r.Ok? ==> IsChunked(r.value)
  {
    if |words| < 12 then Err(InputTooShort)
    else if |words| % 3 == 0 then Err(MissingLastWord)
    else
      var body, checksumWord := words[..|words| - 1], words[|words| - 1];
      var text :- DecodeFrom(c, body, 0);
      var expected := body[ChecksumIndex(c, body)];
      if |expected| < c.prefixLength || |checksumWord| < c.prefixLength then Err(OutOfBounds)
      else if expected[..c.prefixLength] != checksumWord[..c.prefixLength] then Err(ChecksumMismatch)
      else Ok(text)
  }

  function Decoded(c: Codec, phrase: string): (r: Result<string, DecodeError>)
    requires c.Sound()
    ensures r.Ok? ==> IsChunked(r.value)
  {
    DecodedWords(c, SplitWhitespace(phrase))
  }

  /** Decoded text in front of what remains to be decoded. */
  function Prepend(text: string, r: Result<string, DecodeError>): Result<string, DecodeError> {
    if r.Ok? then Ok(text + r.value) else r
  }

  lemma PrependNothing(r: Result<string, DecodeError>)
    ensures Prepend([], r) == r
  {
    if r.Ok? {
      assert [] + r.value == r.value;
    }
  }

  lemma DecodeStep(c: Codec, ws: seq<string>, k: nat, text: string)
    requires k < |ws|
    ensures var first := DecodeTriple(c, ws, k);
            Prepend(text, DecodeFrom(c, ws, k)) ==
            if first.Ok? then Prepend(text + first.value, DecodeFrom(c, ws, k + 3)) else first
  {
    var first, rest := DecodeTriple(c, ws, k), DecodeFrom(c, ws, k + 3);
    if first.Ok? && rest.Ok? {
      assert text + (first.value + rest.value) == (text + first.value) + rest.value;
    }
  }

  method Decode(phrase: string, l: Language) returns (r: Result<string, DecodeError>)
    ensures r == Decoded(CodecOf(l), phrase)
  {
    r := DecodeIn(phrase, CodecOf(l));
  }

  method DecodeIn(phrase: string, c: Codec) returns (r: Result<string, DecodeError>)
    requires c.Sound()
    ensures r == Decoded(c, phrase)
  {
    var words := SplitWhitespace(phrase);
    if |words| < 12 {
      return Err(InputTooShort);
    }
    if |words| % 3 == 0 {
      return Err(MissingLastWord);
    }
    var checksumWord := words[|words| - 1];
    words := words[..|words| - 1];
    var result :- ReadTriples(words, c);
    var expected := words[ChecksumIndex(c, words)];
    if |expected| < c.prefixLength || |checksumWord| < c.prefixLength {
      return Err(OutOfBounds);
    }
    if expected[..c.prefixLength] != checksumWord[..c.prefixLength] {
      return Err(ChecksumMismatch);
    }
    return Ok(result);
  }

  /** The loop of `decode`. */
  method ReadTriples(words: seq<string>, c: Codec) returns (r: Result<string, DecodeError>)
    ensures r == DecodeFrom(c, words, 0)
  {
    var result := [];
    var start := 0;
    PrependNothing(DecodeFrom(c, words, 0));
    while start < |words|
      invariant DecodeFrom(c, words, 0) == Prepend(result, DecodeFrom(c, words, start))
      decreases |words| - start
    {
      DecodeStep(c, words, start, result);
      var w1 :- Lookup(c, words, start);
      var w2 :- Lookup(c, words, start + 1);
      var w3 :- Lookup(c, words, start + 2);
      var x := c.numerals.join(w1, w2, w3);
      if c.numerals.lowest(x) != w1 {
        return Err(Generic);
      }
      var text := PaddedHex(x);
      result := result + Swap(text[|text| - 8..]);
      start := start + 3;
    }
    assert result + [] == result;
    return Ok(result);
  }

  /** "0000000{:x}", whose last eight characters the decoder keeps. */
  function PaddedHex(x: nat): (text: string)
    ensures |text| >= 8 && text[|text| - 8..] == FixedHex(x, 8)
  {
    LastDigits(x, 8);
    assert "0000000" == ZeroDigits(7);
    "0000000" + LowerHex(x)
  }

  // ---------- looking words up ----------

  /** `w` is read as the `i`-th word of the list. */
  ghost predicate Names(c: Codec, w: string, i: nat) {
    i < |c.words| && c.prefixLength <= |w| && c.prefixLength <= |c.words[i]|
    && w[..c.prefixLength] == c.words[i][..c.prefixLength]
  }

  lemma {:induction false} PositionIs(ws: seq<string>, w: string, i: nat, k: nat)
    requires NoDuplicates(ws) && i <= k < |ws|
    ensures Position(ws, w, i) == Some(k) <==> ws[k] == w
    decreases |ws| - i
  {
    NoDuplicate(ws, i, k);
    if i < k && ws[i] != w {
      PositionIs(ws, w, i + 1, k);
    }
  }

  lemma LookupNamed(c: Codec, ws: seq<string>, k: nat, i: nat)
    requires c.DistinctPrefixes() && k < |ws|
    ensures Names(c, ws[k], i) <==> Lookup(c, ws, k) == Ok(i)
  {
    if i < |c.words| {
      WordIsWord(c.words, c.prefixLength, i);
      assert c.Prefixes(c.words)[i] == c.words[i][..c.prefixLength];
      if c.prefixLength <= |ws[k]| {
        PositionIs(c.Prefixes(c.words), ws[k][..c.prefixLength], 0, i);
      }
    }
  }

  /** The words `ws` name the listed words `full`, one by one. */
  ghost predicate NamesAll(c: Codec, ws: seq<string>, full: seq<string>) {
    |ws| == |full|
    && forall k :: 0 <= k < |ws| ==>
         c.prefixLength <= |ws[k]| && c.prefixLength <= |full[k]| && full[k] in c.words
         && ws[k][..c.prefixLength] == full[k][..c.prefixLength]
  }

  lemma ChecksumOfNamed(c: Codec, ws: seq<string>, full: seq<string>)
    requires c.Sound() && NamesAll(c, ws, full) && ws != []
    ensures ChecksumIndex(c, ws) == ChecksumIndex(c, full)
  {
    assert c.Prefixes(ws) == c.Prefixes(full);
  }

  /** The decoder's own consistency check never fires. */
  lemma GenericNeverFires(c: Codec, ws: seq<string>, k: nat)
    requires c.Sound()
    ensures DecodeTriple(c, ws, k) != Err(Generic)
  {
  }

  lemma {:induction false} GenericNeverReported(c: Codec, ws: seq<string>, k: nat)
    requires c.Sound()
    ensures DecodeFrom(c, ws, k) != Err(Generic)
    decreases |ws| - k
  {
    GenericNeverFires(c, ws, k);
    if k < |ws| {
      GenericNeverReported(c, ws, k + 3);
    }
  }

  // ---------- encode, then decode ----------

  const FOUR_BYTES: nat := 0x1_0000_0000

  /** What comes back of an eight-digit numeral sent through a triple of words. */
  function ReadChunk(c: Codec, chunk: string): (s: string)
    requires IsHex(chunk)
    ensures |s| == 8 && IsHex(s)
  {
    var w := c.numerals.split(ParseHex(chunk));
    FixedHex(c.numerals.join(w.0, w.1, w.2), 8)
  }

  lemma DecodeOfChunk(c: Codec, ws: seq<string>, k: nat, chunk: string)
    requires c.Good() && IsHex(chunk) && k + 3 <= |ws|
    requires NamesAll(c, ws[k..k + 3], ChunkWords(c, chunk))
    ensures DecodeTriple(c, ws, k) == Ok(Swap(ReadChunk(c, chunk)))
  {
    var w := c.numerals.split(ParseHex(chunk));
    var three := ws[k..k + 3];
    assert three[0] == ws[k] && three[1] == ws[k + 1] && three[2] == ws[k + 2];
    LookupNamed(c, ws, k, w.0);
    LookupNamed(c, ws, k + 1, w.1);
    LookupNamed(c, ws, k + 2, w.2);
  }

  /** A numeral survives exactly when three words can write its number. */
  lemma ChunkSurvives(c: Codec, chunk: string)
    requires c.Sound() && IsHex(chunk) && |chunk| == 8
    ensures ReadChunk(c, chunk) == Lower(chunk) <==> ParseHex(chunk) < c.numerals.size
  {
    var x := ParseHex(chunk);
    var w := c.numerals.split(x);
    var y := c.numerals.join(w.0, w.1, w.2);
    FixedHexOfParse(chunk);
    ParseFixedHex(x, 8);
    ParseFixedHex(y, 8);
    NumeralBound(chunk);
    if x >= c.numerals.size {
      assert y < c.numerals.size <= x && y != x;
      HexMod(y);
      HexMod(x);
    }
  }

  lemma HexMod(x: nat)
    requires x < Pow16(8)
    ensures x % Pow16(8) == x
  {
    Pow16Of8();
  }

  lemma {:induction false} NumeralBound(s: string)
    requires IsHex(s)
    ensures ParseHex(s) < Pow16(|s|)
  {
    if s != [] {
      NumeralBound(s[..|s| - 1]);
    }
  }

  /** What comes back of a text of numerals. */
  function ReadChunks(c: Codec, s: string): (t: string)
    requires IsChunked(s)
    ensures IsChunked(t) && |t| == |s|
  {
    if s == [] then []
    else
      ChunkedConcat(Swap(ReadChunk(c, s[..8])), ReadChunks(c, s[8..]));
      Swap(ReadChunk(c, s[..8])) + ReadChunks(c, s[8..])
  }

  lemma NamesThree(c: Codec, ws: seq<string>, k: nat, three: seq<string>, rest: seq<string>)
    requires k <= |ws| && |three| == 3 && NamesAll(c, ws[k..], three + rest)
    ensures k + 3 <= |ws| && NamesAll(c, ws[k..k + 3], three) && NamesAll(c, ws[k + 3..], rest)
  {
    assert forall j :: 0 <= j < 3 ==> ws[k..k + 3][j] == ws[k..][j] && (three + rest)[j] == three[j];
    assert forall j :: 0 <= j < |rest| ==> ws[k + 3..][j] == ws[k..][j + 3] && (three + rest)[j + 3] == rest[j];
  }

  lemma {:induction false} DecodeOfWords(c: Codec, s: string, ws: seq<string>, k: nat)
    requires c.Good() && IsChunked(s) && k <= |ws|
    requires NamesAll(c, ws[k..], AllChunkWords(c, s))
    ensures DecodeFrom(c, ws, k) == Ok(ReadChunks(c, s))
    decreases |s|
  {
    if s != [] {
      NamesThree(c, ws, k, ChunkWords(c, s[..8]), AllChunkWords(c, s[8..]));
      DecodeOfChunk(c, ws, k, s[..8]);
      DecodeOfWords(c, s[8..], ws, k + 3);
    }
  }

  /** Every eight-digit numeral of the text, read back to front by bytes, is a number three words can write. */
  ghost predicate Fits(c: Codec, s: string)
    requires IsChunked(s)
  {
    s == [] || (ParseHex(s[..8]) < c.numerals.size && Fits(c, s[8..]))
  }

  lemma LowerOfConcat(a: string, b: string)
    requires IsHex(a) && IsHex(b)
    ensures IsHex(a + b) && Lower(a + b) == Lower(a) + Lower(b)
  {
  }

  lemma SwapOfLower(x: string)
    requires |x| == 8 && IsHex(x)
    ensures Swap(Lower(x)) == Lower(Swap(x))
  {
  }

  lemma SameSplit(a: string, b: string, x: string, y: string)
    requires |a| == |x|
    ensures a + b == x + y <==> a == x && b == y
  {
    if a + b == x + y {
      assert a == (a + b)[..|a|] && x == (x + y)[..|x|];
      assert b == (a + b)[|a|..] && y == (x + y)[|x|..];
    }
  }

  lemma {:induction false} TextSurvives(c: Codec, h: string)
    requires c.Sound() && IsChunked(h)
    ensures ReadChunks(c, SwapAll(h)) == Lower(h) <==> Fits(c, SwapAll(h))
    decreases |h|
  {
    if h != [] {
      var chunk, rest := h[..8], h[8..];
      assert h == chunk + rest;
      var s := SwapAll(h);
      assert s[..8] == Swap(chunk) && s[8..] == SwapAll(rest);
      TextSurvives(c, rest);
      ChunkSurvives(c, Swap(chunk));
      LowerOfConcat(chunk, rest);
      SwapOfLower(chunk);
      SwapTwice(Lower(chunk));
      SwapTwice(ReadChunk(c, Swap(chunk)));
      SameSplit(Swap(ReadChunk(c, Swap(chunk))), ReadChunks(c, SwapAll(rest)), Lower(chunk), Lower(rest));
    }
  }

  lemma {:induction false} ChunkWordsAreListed(c: Codec, s: string)
    requires c.Good() && IsChunked(s)
    ensures forall i :: 0 <= i < |AllChunkWords(c, s)| ==> AllChunkWords(c, s)[i] in c.words
    decreases |s|
  {
    if s != [] {
      ChunkWordsAreListed(c, s[8..]);
    }
  }

  /** The cores of listed words name them. */
  lemma CoresName(c: Codec, full: seq<string>)
    requires c.DistinctPrefixes() && forall i :: 0 <= i < |full| ==> full[i] in c.words
    ensures NamesAll(c, Cores(full), full) && forall i :: 0 <= i < |full| ==> IsWord(full[i])
  {
    forall i | 0 <= i < |full|
      ensures IsWord(full[i]) && c.prefixLength <= |Core(full[i])|
      ensures Core(full[i])[..c.prefixLength] == full[i][..c.prefixLength]
    {
      var j :| 0 <= j < |c.words| && c.words[j] == full[i];
      WordIsWord(c.words, c.prefixLength, j);
    }
  }

  /** The phrase of listed words splits into their cores. */
  lemma SplitPhrase(c: Codec, full: seq<string>)
    requires c.Good() && full != [] && forall i :: 0 <= i < |full| ==> full[i] in c.words
    ensures var words := SplitWhitespace(Join(WithChecksum(c, full)));
            |words| == |full| + 1 && words[..|full|] == Cores(full)
            && words[|full|] == Core(full[ChecksumIndex(c, full)])
  {
    var all := WithChecksum(c, full);
    CoresName(c, all);
    SplitOfJoin(all);
    assert Cores(all)[..|full|] == Cores(full);
  }

  /** Words whose triples decode and whose last word is the checksum word decode. */
  lemma DecodeOfParts(c: Codec, body: seq<string>, last: string, m: nat)
    requires c.Sound() && |body| == 3 * m && m >= 4 && DecodeFrom(c, body, 0).Ok?
    requires last == body[ChecksumIndex(c, body)] && |last| >= c.prefixLength
    ensures DecodedWords(c, body + [last]) == DecodeFrom(c, body, 0)
  {
    hide DecodeFrom, ChecksumIndex;
    var words := body + [last];
    var text := DecodeFrom(c, body, 0);
    assert |words| == 3 * m + 1;
    assert |words| >= 12 && |words| % 3 == 1;
    assert words[..|words| - 1] == body;
    assert words[|words| - 1] == last;
    assert body[ChecksumIndex(c, body)][..c.prefixLength] == last[..c.prefixLength];
    assert DecodedWords(c, words) == text;
  }

  lemma DecodeOfNamed(c: Codec, body: seq<string>, last: string, s: string)
    requires c.Good() && IsChunked(s) && |s| >= 32 && NamesAll(c, body, AllChunkWords(c, s))
    requires last == body[ChecksumIndex(c, body)]
    ensures DecodedWords(c, body + [last]) == Ok(ReadChunks(c, s))
  {
    assert body[0..] == body;
    DecodeOfWords(c, s, body, 0);
    DecodeOfParts(c, body, last, |s| / 8);
  }

  lemma DecodeOfEncoded(c: Codec, h: string)
    requires c.Good() && Encodable(h)
    ensures Decoded(c, Encoded(c, h)) == if |h| < 32 then Err(InputTooShort) else Ok(ReadChunks(c, SwapAll(h)))
  {
    hide AllChunkWords, SwapAll, ReadChunks, ChecksumIndex, WithChecksum, Join, SplitWhitespace, DecodeFrom;
    var full := AllChunkWords(c, SwapAll(h));
    ChunkWordsAreListed(c, SwapAll(h));
    SplitPhrase(c, full);
    CoresName(c, full);
    var body := Cores(full);
    ChecksumOfNamed(c, body, full);
    var words := SplitWhitespace(Encoded(c, h));
    assert words == body + [words[|full|]];
    if |h| >= 32 {
      DecodeOfNamed(c, body, words[|full|], SwapAll(h));
    }
  }

  /**
   Encoding and decoding gives the text back in lower case exactly when every numeral in it is a
   number that three words can write; a text of less than 16 bytes is refused as too short.
   */
  lemma EncodeThenDecode(c: Codec, h: string)
    requires c.Good() && Encodable(h)
    ensures |h| < 32 ==> Decoded(c, Encoded(c, h)) == Err(InputTooShort)
    ensures |h| >= 32 ==> (Decoded(c, Encoded(c, h)) == Ok(Lower(h)) <==> Fits(c, SwapAll(h)))
  {
    DecodeOfEncoded(c, h);
    TextSurvives(c, h);
  }

  lemma {:induction false} EnoughWordsFit(c: Codec, s: string)
    requires IsChunked(s) && c.numerals.size >= FOUR_BYTES
    ensures Fits(c, s)
    decreases |s|
  {
    if s != [] {
      Pow16Of8();
      NumeralBound(s[..8]);
      EnoughWordsFit(c, s[8..]);
    }
  }

  /** The round trip of a language with enough words. */
  lemma LanguageRoundTrip(c: Codec, h: string)
    requires c.Good() && c.numerals.size >= FOUR_BYTES && Encodable(h) && |h| >= 32
    ensures Decoded(c, Encoded(c, h)) == Ok(Lower(h))
  {
    EnoughWordsFit(c, SwapAll(h));
    EncodeThenDecode(c, h);
  }

  /** What the shipped English list satisfies: 1626 words with distinct three-letter prefixes. */
  lemma EnoughWords(l: Language)
    requires CodecOf(l).DistinctPrefixes() && |l.Words()| >= 1626
    ensures CodecOf(l).Good() && CodecOf(l).numerals.size >= FOUR_BYTES
  {
    EnoughTriples(|l.Words()|);
  }

  // ---------- decode, then encode ----------

  /** The number of the three words from the `k`-th on, as the decoder computes it. */
  function TripleNumber(c: Codec, ws: seq<string>, k: nat): nat
    requires Lookup(c, ws, k).Ok? && Lookup(c, ws, k + 1).Ok? && Lookup(c, ws, k + 2).Ok?
  {
    c.numerals.join(Lookup(c, ws, k).value, Lookup(c, ws, k + 1).value, Lookup(c, ws, k + 2).value)
  }

  /** Every triple of words from the `k`-th on stands for a number of at most eight digits. */
  ghost predicate AllFourBytes(c: Codec, ws: seq<string>, k: nat)
    requires DecodeFrom(c, ws, k).Ok?
    decreases |ws| - k
  {
    k >= |ws| || (TripleNumber(c, ws, k) < FOUR_BYTES && AllFourBytes(c, ws, k + 3))
  }

  /** The three listed words that are abbreviated from the `k`-th word on. */
  function TripleWords(c: Codec, ws: seq<string>, k: nat): (three: seq<string>)
    requires Lookup(c, ws, k).Ok? && Lookup(c, ws, k + 1).Ok? && Lookup(c, ws, k + 2).Ok?
    ensures |three| == 3
  {
    [c.words[Lookup(c, ws, k).value], c.words[Lookup(c, ws, k + 1).value], c.words[Lookup(c, ws, k + 2).value]]
  }

  /** The listed words that `ws` abbreviates, from the `k`-th on. */
  function Expanded(c: Codec, ws: seq<string>, k: nat): (full: seq<string>)
    requires DecodeFrom(c, ws, k).Ok?
    decreases |ws| - k
  {
    if k >= |ws| then [] else TripleWords(c, ws, k) + Expanded(c, ws, k + 3)
  }

  lemma DifferentWords(c: Codec, i: nat, j: nat)
    requires c.DistinctPrefixes() && i < |c.words| && j < |c.words|
    ensures c.words[i] == c.words[j] <==> i == j
  {
    var ps := c.Prefixes(c.words);
    NoDuplicate(ps, i, j);
    assert ps[i] == c.Prefix(c.words[i]) && ps[j] == c.Prefix(c.words[j]);
  }

  lemma SameTriple(c: Codec, a: (nat, nat, nat), b: (nat, nat, nat))
    requires c.DistinctPrefixes()
    requires a.0 < |c.words| && a.1 < |c.words| && a.2 < |c.words|
    requires b.0 < |c.words| && b.1 < |c.words| && b.2 < |c.words|
    ensures [c.words[a.0], c.words[a.1], c.words[a.2]] == [c.words[b.0], c.words[b.1], c.words[b.2]] <==> a == b
  {
    DifferentWords(c, a.0, b.0);
    DifferentWords(c, a.1, b.1);
    DifferentWords(c, a.2, b.2);
    var x, y := [c.words[a.0], c.words[a.1], c.words[a.2]], [c.words[b.0], c.words[b.1], c.words[b.2]];
    if x == y {
      assert x[0] == y[0] && x[1] == y[1] && x[2] == y[2];
    }
  }

  /** Of the numbers up to a triple's own, only its own splits into the triple. */
  lemma OnlyOwnNumber(d: Numerals, w: (nat, nat, nat), y: nat)
    requires Bijective(d) && w.0 < d.base && w.1 < d.base && w.2 < d.base
    requires y <= d.join(w.0, w.1, w.2)
    ensures d.split(y) == w <==> y == d.join(w.0, w.1, w.2)
  {
    assert y < d.size;
    assert d.join(d.split(y).0, d.split(y).1, d.split(y).2) == y;
  }

  /** What `encode` reads of a decoded triple. */
  lemma ReadOfPrinted(x: nat)
    ensures ParseHex(Swap(Swap(FixedHex(x, 8)))) == x % FOUR_BYTES
  {
    SwapTwice(FixedHex(x, 8));
    ParseFixedHex(x, 8);
    Pow16Of8();
  }

  /** The words of a printed number name the triple `w` exactly when the number is the triple's own. */
  lemma PrintedTriple(c: Codec, w: (nat, nat, nat), x: nat)
    requires c.Good() && w.0 < |c.words| && w.1 < |c.words| && w.2 < |c.words|
    requires x == c.numerals.join(w.0, w.1, w.2)
    ensures ChunkWords(c, Swap(Swap(FixedHex(x, 8)))) == [c.words[w.0], c.words[w.1], c.words[w.2]]
            <==> x < FOUR_BYTES
  {
    var y := x % FOUR_BYTES;
    ReadOfPrinted(x);
    SameTriple(c, c.numerals.split(y), w);
    KeptDigits(x);
    OnlyOwnNumber(c.numerals, w, y);
  }

  lemma KeptDigits(x: nat)
    ensures x % FOUR_BYTES <= x && (x % FOUR_BYTES == x <==> x < FOUR_BYTES)
  {
  }

  /** A triple of words comes back exactly when its number has at most eight digits. */
  lemma TripleSurvives(c: Codec, ws: seq<string>, k: nat)
    requires c.Good() && DecodeTriple(c, ws, k).Ok?
    ensures ChunkWords(c, Swap(DecodeTriple(c, ws, k).value)) == TripleWords(c, ws, k)
            <==> TripleNumber(c, ws, k) < FOUR_BYTES
  {
    var w := (Lookup(c, ws, k).value, Lookup(c, ws, k + 1).value, Lookup(c, ws, k + 2).value);
    PrintedTriple(c, w, TripleNumber(c, ws, k));
  }

  lemma {:induction false} WordsSurvive(c: Codec, ws: seq<string>, k: nat)
    requires c.Good() && DecodeFrom(c, ws, k).Ok?
    ensures AllChunkWords(c, SwapAll(DecodeFrom(c, ws, k).value)) == Expanded(c, ws, k) <==> AllFourBytes(c, ws, k)
    decreases |ws| - k
  {
    if k < |ws| {
      var first, rest := DecodeTriple(c, ws, k).value, DecodeFrom(c, ws, k + 3).value;
      var h := first + rest;
      assert h[..8] == first && h[8..] == rest;
      var s := SwapAll(h);
      assert s[..8] == Swap(first) && s[8..] == SwapAll(rest);
      TripleSurvives(c, ws, k);
      WordsSurvive(c, ws, k + 3);
      SameWords(ChunkWords(c, Swap(first)), AllChunkWords(c, SwapAll(rest)),
                TripleWords(c, ws, k), Expanded(c, ws, k + 3));
    }
  }

  lemma SameWords(a: seq<string>, b: seq<string>, x: seq<string>, y: seq<string>)
    requires |a| == |x|
    ensures a + b == x + y <==> a == x && b == y
  {
    if a + b == x + y {
      assert a == (a + b)[..|a|] && x == (x + y)[..|x|];
      assert b == (a + b)[|a|..] && y == (x + y)[|x|..];
    }
  }

  /** What `NamesAll` says of one word. */
  ghost predicate NamesWord(c: Codec, w: string, full: string) {
    c.prefixLength <= |w| && c.prefixLength <= |full| && full in c.words
    && w[..c.prefixLength] == full[..c.prefixLength]
  }

  lemma TripleNames(c: Codec, ws: seq<string>, k: nat)
    requires c.DistinctPrefixes() && DecodeTriple(c, ws, k).Ok?
    ensures k + 3 <= |ws|
    ensures forall j :: 0 <= j < 3 ==> NamesWord(c, ws[k + j], TripleWords(c, ws, k)[j])
  {
    LookupNamed(c, ws, k, Lookup(c, ws, k).value);
    LookupNamed(c, ws, k + 1, Lookup(c, ws, k + 1).value);
    LookupNamed(c, ws, k + 2, Lookup(c, ws, k + 2).value);
  }

  lemma ExpandedStep(c: Codec, ws: seq<string>, k: nat) returns (three: seq<string>)
    requires c.DistinctPrefixes() && k < |ws| && DecodeFrom(c, ws, k).Ok?
    ensures k + 3 <= |ws| && |three| == 3 && DecodeFrom(c, ws, k + 3).Ok?
    ensures Expanded(c, ws, k) == three + Expanded(c, ws, k + 3)
    ensures forall j :: 0 <= j < 3 ==> NamesWord(c, ws[k + j], three[j])
  {
    hide NamesWord;
    TripleNames(c, ws, k);
    three := TripleWords(c, ws, k);
  }

  lemma {:induction false} ExpandedNames(c: Codec, ws: seq<string>, k: nat, j: nat)
    requires c.DistinctPrefixes() && k <= |ws| && DecodeFrom(c, ws, k).Ok?
    ensures |Expanded(c, ws, k)| == |ws| - k
    ensures k <= j < |ws| ==> NamesWord(c, ws[j], Expanded(c, ws, k)[j - k])
    decreases |ws| - k
  {
    hide DecodeFrom, NamesWord;
    if k < |ws| {
      var three := ExpandedStep(c, ws, k);
      ExpandedNames(c, ws, k + 3, j);
      var full, rest := Expanded(c, ws, k), Expanded(c, ws, k + 3);
      if k <= j < k + 3 {
        assert full[j - k] == three[j - k];
        assert NamesWord(c, ws[k + (j - k)], three[j - k]);
      } else if k + 3 <= j < |ws| {
        assert full[j - k] == rest[j - (k + 3)];
      }
    }
  }

  lemma ThreeToEight(a: nat, b: nat)
    requires 8 * a == 3 * b && b % 8 == 0
    ensures a % 3 == 0 && (a + 1) % 3 == 1 && (a >= 11 ==> a >= 12)
  {
    assert a == 3 * (b / 8);
  }

  /** An accepted phrase is whole: its words but the last come in threes, and decode. */
  lemma AcceptedWords(c: Codec, words: seq<string>)
    requires c.Sound() && DecodedWords(c, words).Ok?
    ensures |words| >= 13 && |words| % 3 == 1
    ensures DecodeFrom(c, words[..|words| - 1], 0) == DecodedWords(c, words)
  {
    var body := words[..|words| - 1];
    assert DecodeFrom(c, body, 0) == DecodedWords(c, words);
    WholeTriples(c, body, 0);
    ThreeToEight(|body|, |DecodeFrom(c, body, 0).value|);
  }

  lemma {:induction false} WholeTriples(c: Codec, ws: seq<string>, k: nat)
    requires k <= |ws| && DecodeFrom(c, ws, k).Ok?
    ensures 8 * (|ws| - k) == 3 * |DecodeFrom(c, ws, k).value|
    decreases |ws| - k
  {
    var text := DecodeFrom(c, ws, k).value;
    if k < |ws| {
      WholeTriples(c, ws, k + 3);
      var first, rest := DecodeTriple(c, ws, k).value, DecodeFrom(c, ws, k + 3).value;
      assert text == first + rest && |first| == 8;
    } else {
      assert k == |ws| && text == [];
    }
  }

  /** The phrase with every word, the checksum word too, replaced by the listed word it abbreviates. */
  function ExpandedPhrase(c: Codec, words: seq<string>): string
    requires c.Sound() && DecodedWords(c, words).Ok?
  {
    var full := Expanded(c, words[..|words| - 1], 0);
    AcceptedWords(c, words);
    assert |full| > 0;
    Join(WithChecksum(c, full))
  }

  /** Equal phrases of listed words are made of equal words. */
  lemma SamePhraseSameWords(c: Codec, a: seq<string>, b: seq<string>)
    requires c.Good() && a != [] && |a| == |b|
    requires forall i :: 0 <= i < |a| ==> a[i] in c.words && b[i] in c.words
    ensures Join(WithChecksum(c, a)) == Join(WithChecksum(c, b)) <==> a == b
  {
    if Join(WithChecksum(c, a)) == Join(WithChecksum(c, b)) {
      SplitPhrase(c, a);
      SplitPhrase(c, b);
      assert Cores(a) == Cores(b);
      forall i | 0 <= i < |a|
        ensures a[i] == b[i]
      {
        assert Cores(a)[i] == Core(a[i]) && Cores(b)[i] == Core(b[i]);
        SameCoreSameWord(c, a[i], b[i]);
      }
    }
  }

  lemma SameCoreSameWord(c: Codec, v: string, w: string)
    requires c.DistinctPrefixes() && v in c.words && w in c.words && Core(v) == Core(w)
    ensures v == w
  {
    var i :| 0 <= i < |c.words| && c.words[i] == v;
    var j :| 0 <= j < |c.words| && c.words[j] == w;
    WordIsWord(c.words, c.prefixLength, i);
    WordIsWord(c.words, c.prefixLength, j);
    var ps := c.Prefixes(c.words);
    assert ps[i] == Core(v)[..c.prefixLength] && ps[j] == Core(w)[..c.prefixLength];
    NoDuplicate(ps, i, j);
  }

  /** The words that the decoded text is encoded with, against the words decoded. */
  lemma EncodedAgain(c: Codec, body: seq<string>)
    requires c.Good() && body != [] && DecodeFrom(c, body, 0).Ok?
    ensures var h, full := DecodeFrom(c, body, 0).value, Expanded(c, body, 0);
            Encodable(h) && full != []
            && (Encoded(c, h) == Join(WithChecksum(c, full)) <==> AllFourBytes(c, body, 0))
  {
    var h, full := DecodeFrom(c, body, 0).value, Expanded(c, body, 0);
    WholeTriples(c, body, 0);
    WordsSurvive(c, body, 0);
    NamesAllExpanded(c, body);
    var again := AllChunkWords(c, SwapAll(h));
    ChunkWordsAreListed(c, SwapAll(h));
    assert |again| == |h| / 8 * 3 == |full|;
    SamePhraseSameWords(c, again, full);
  }

  /**
   Decoding and encoding again gives the same phrase, every word written out in full, exactly when
   every triple of words stands for a number of at most eight digits: the decoder keeps only the
   last eight digits of a larger one.
   */
  lemma DecodeThenEncode(c: Codec, words: seq<string>)
    requires c.Good() && DecodedWords(c, words).Ok?
    ensures Encodable(DecodedWords(c, words).value)
    ensures DecodeFrom(c, words[..|words| - 1], 0).Ok?
    ensures Encoded(c, DecodedWords(c, words).value) == ExpandedPhrase(c, words)
            <==> AllFourBytes(c, words[..|words| - 1], 0)
  {
    AcceptedWords(c, words);
    EncodedAgain(c, words[..|words| - 1]);
  }

  /** The last word of an accepted phrase abbreviates the checksum word of the expanded phrase. */
  lemma ChecksumWordExpands(c: Codec, words: seq<string>)
    requires c.Good() && DecodedWords(c, words).Ok?
    ensures var body := words[..|words| - 1];
            DecodeFrom(c, body, 0).Ok? && Expanded(c, body, 0) != []
            && NamesWord(c, words[|words| - 1], Expanded(c, body, 0)[ChecksumIndex(c, Expanded(c, body, 0))])
  {
    AcceptedWords(c, words);
    var body := words[..|words| - 1];
    var full := Expanded(c, body, 0);
    NamesAllExpanded(c, body);
    ChecksumOfNamed(c, body, full);
    assert NamesWord(c, body[ChecksumIndex(c, body)], full[ChecksumIndex(c, full)]);
  }

  lemma NamesAllExpanded(c: Codec, body: seq<string>)
    requires c.DistinctPrefixes() && DecodeFrom(c, body, 0).Ok?
    ensures NamesAll(c, body, Expanded(c, body, 0))
    ensures forall i :: 0 <= i < |body| ==> NamesWord(c, body[i], Expanded(c, body, 0)[i])
  {
    ExpandedNames(c, body, 0, 0);
    forall i | 0 <= i < |body|
      ensures NamesWord(c, body[i], Expanded(c, body, 0)[i])
    {
      ExpandedNames(c, body, 0, i);
    }
  }

  // ---------- what is accepted ----------

  /** The word is long enough and abbreviates a listed word. */
  ghost predicate Known(c: Codec, w: string) {
    Lookup(c, [w], 0).Ok?
  }

  lemma TripleDecodes(c: Codec, ws: seq<string>, k: nat)
    requires c.Good() && k + 3 <= |ws|
    ensures DecodeTriple(c, ws, k).Ok? <==> Known(c, ws[k]) && Known(c, ws[k + 1]) && Known(c, ws[k + 2])
  {
    GenericNeverFires(c, ws, k);
    SameLookup(c, ws, k);
    SameLookup(c, ws, k + 1);
    SameLookup(c, ws, k + 2);
  }

  lemma SameLookup(c: Codec, ws: seq<string>, k: nat)
    requires k < |ws|
    ensures Lookup(c, ws, k) == Lookup(c, [ws[k]], 0)
  {
  }

  /** Three words on, decoding goes on exactly if the three are known. */
  lemma DecodesOn(c: Codec, ws: seq<string>, k: nat)
    requires c.Good() && k + 3 <= |ws|
    ensures DecodeFrom(c, ws, k).Ok? <==>
            Known(c, ws[k]) && Known(c, ws[k + 1]) && Known(c, ws[k + 2]) && DecodeFrom(c, ws, k + 3).Ok?
  {
    hide Known, DecodeTriple;
    TripleDecodes(c, ws, k);
  }

  /** Less than three words left over do not decode. */
  lemma LeftoverFails(c: Codec, ws: seq<string>, k: nat)
    requires k < |ws| < k + 3
    ensures DecodeFrom(c, ws, k).Err?
  {
    assert Lookup(c, ws, k + 2).Err?;
    assert DecodeTriple(c, ws, k).Err?;
  }

  lemma {:induction false} DecodesExactly(c: Codec, ws: seq<string>, k: nat, m: nat, left: nat)
    requires c.Good() && |ws| == k + 3 * m + left && left < 3
    ensures DecodeFrom(c, ws, k).Ok? <==> left == 0 && forall i :: k <= i < |ws| ==> Known(c, ws[i])
    decreases m
  {
    hide Known, DecodeTriple, Lookup;
    if m > 0 {
      hide DecodeFrom;
      DecodesOn(c, ws, k);
      DecodesExactly(c, ws, k + 3, m - 1, left);
    } else if left > 0 {
      LeftoverFails(c, ws, k);
    }
  }

  /** The checksum word of `words` agrees with the word it repeats. */
  ghost predicate ChecksumAgrees(c: Codec, words: seq<string>)
    requires c.Sound() && |words| > 1
  {
    var body, last := words[..|words| - 1], words[|words| - 1];
    var expected := body[ChecksumIndex(c, body)];
    c.prefixLength <= |expected| && c.prefixLength <= |last|
    && expected[..c.prefixLength] == last[..c.prefixLength]
  }

  /**
   The phrases that decode: at least twelve words and a checksum word, in threes but for the
   checksum word, each abbreviating a listed word, the checksum word agreeing with the word it
   repeats.
   */
  lemma AcceptedExactly(c: Codec, words: seq<string>)
    requires c.Good()
    ensures DecodedWords(c, words).Ok? <==>
              && |words| >= 13 && |words| % 3 == 1
              && (forall i :: 0 <= i < |words| - 1 ==> Known(c, words[i]))
              && ChecksumAgrees(c, words)
  {
    hide DecodeFrom, Known, ChecksumIndex;
    if |words| >= 12 && |words| % 3 != 0 {
      var m, left := (|words| - 1) / 3, (|words| - 1) % 3;
      BodyDecodes(c, words, m, left);
      assert left == 0 <==> |words| % 3 == 1;
      assert DecodedWords(c, words).Ok? <==> DecodeFrom(c, words[..|words| - 1], 0).Ok? && ChecksumAgrees(c, words);
    }
  }

  lemma BodyDecodes(c: Codec, words: seq<string>, m: nat, left: nat)
    requires c.Good() && |words| == 3 * m + left + 1 && left < 3
    ensures DecodeFrom(c, words[..|words| - 1], 0).Ok? <==>
            left == 0 && forall i :: 0 <= i < |words| - 1 ==> Known(c, words[i])
  {
    var body := words[..|words| - 1];
    DecodesExactly(c, body, 0, m, left);
    assert forall i :: 0 <= i < |body| ==> body[i] == words[i];
  }

  /** With two words left over after the triples the decoder reads past the end, or fails before it gets there. */
  lemma LeftoverWordsFail(c: Codec, words: seq<string>)
    requires c.Good() && |words| >= 12 && |words| % 3 == 2
    ensures DecodedWords(c, words) in {Err(UnknownWord), Err(OutOfBounds)}
  {
    var body := words[..|words| - 1];
    DecodesExactly(c, body, 0, |body| / 3, 1);
    assert DecodeFrom(c, body, 0).Err?;
    assert DecodedWords(c, words) == Err(DecodeFrom(c, body, 0).error);
    GenericNeverReported(c, body, 0);
    LookupErrors(c, body, 0);
  }

  lemma {:induction false} LookupErrors(c: Codec, ws: seq<string>, k: nat)
    ensures DecodeFrom(c, ws, k).Ok? || DecodeFrom(c, ws, k).error in {UnknownWord, OutOfBounds, Generic}
    decreases |ws| - k
  {
    if k < |ws| {
      LookupErrors(c, ws, k + 3);
    }
  }
}
