/**
 Words and white space, as `split`, `split_whitespace` and `join` treat ASCII text. A word may carry
 white space at its end: the last word of the shipped English list does, since the file ends in a line
 feed. Splitting drops it, so what comes back of a word is its `Core`. The lemmas relate joining and
 splitting, and pin down both where no word carries any.
 */
module WordText {

  predicate IsSpace(c: char) {
    c == ' ' || '\t' <= c <= '\r'
  }

  predicate AllSpace(s: string) {
    forall i :: 0 <= i < |s| ==> IsSpace(s[i])
  }

  /** The longest prefix without white space. */
  function Core(s: string): (t: string)
    ensures |t| <= |s| && t == s[..|t|] && forall i :: 0 <= i < |t| ==> !IsSpace(t[i])
    ensures |t| < |s| ==> IsSpace(s[|t|])
  {
    if s == [] || IsSpace(s[0]) then [] else [s[0]] + Core(s[1..])
  }

  function SkipSpace(s: string): (t: string)
    ensures |t| <= |s| && (t != [] ==> !IsSpace(t[0]))
  {
    if s != [] && IsSpace(s[0]) then SkipSpace(s[1..]) else s
  }

  function SplitWhitespace(s: string): seq<string>
    decreases |s|
  {
    var t := SkipSpace(s);
    if t == [] then [] else [Core(t)] + SplitWhitespace(t[|Core(t)|..])
  }

  /** `s.split(',')`: never empty. */
  function SplitComma(s: string): (ws: seq<string>)
    ensures |ws| > 0
  {
    if s == [] then [[]]
    else
      var rest := SplitComma(s[1..]);
      if s[0] == ',' then [[]] + rest else [[s[0]] + rest[0]] + rest[1..]
  }

  function Join(ws: seq<string>): string {
    if ws == [] then [] else if |ws| == 1 then ws[0] else ws[0] + " " + Join(ws[1..])
  }

  function Concat(ws: seq<string>): string {
    if ws == [] then [] else ws[0] + Concat(ws[1..])
  }

  function Cores(ws: seq<string>): (cs: seq<string>)
    ensures |cs| == |ws| && forall i :: 0 <= i < |ws| ==> cs[i] == Core(ws[i])
  {
    seq(|ws|, i requires 0 <= i < |ws| => Core(ws[i]))
  }

  /**
   A word that white-space splitting leaves whole, but for trailing space (the last English word ends
   in a newline).
   */
  predicate IsWord(s: string) {
    Core(s) != [] && AllSpace(s[|Core(s)|..])
  }

  lemma {:induction false} SkipSpaces(sp: string, t: string)
    requires AllSpace(sp)
    ensures SkipSpace(sp + t) == SkipSpace(t)
    ensures SplitWhitespace(sp + t) == SplitWhitespace(t)
  {
    if sp == [] {
      assert sp + t == t;
    } else {
      assert (sp + t)[1..] == sp[1..] + t;
      SkipSpaces(sp[1..], t);
    }
  }

  lemma {:induction false} CoreOfAppend(s: string, t: string)
    requires Core(s) != s || t == [] || IsSpace(t[0])
    ensures Core(s + t) == Core(s)
  {
    if s == [] || IsSpace(s[0]) {
      if s == [] {
        assert s + t == t;
      }
    } else {
      assert (s + t)[1..] == s[1..] + t;
      assert Core(s) == [s[0]] + Core(s[1..]);
      CoreOfAppend(s[1..], t);
    }
  }

  lemma SplitUnfold(t: string)
    requires t != [] && !IsSpace(t[0])
    ensures SplitWhitespace(t) == [Core(t)] + SplitWhitespace(t[|Core(t)|..])
  {
    assert SkipSpace(t) == t;
  }

  lemma SplitFirst(w: string, rest: string)
    requires IsWord(w) && (rest == [] || IsSpace(rest[0]))
    ensures SplitWhitespace(w + rest) == [Core(w)] + SplitWhitespace(rest)
  {
    CoreOfAppend(w, rest);
    SplitUnfold(w + rest);
    SplitTail(w, rest);
  }

  lemma DropFront(w: string, rest: string, k: nat)
    requires k <= |w|
    ensures (w + rest)[k..] == w[k..] + rest
  {
  }

  lemma SplitTail(w: string, rest: string)
    requires IsWord(w)
    ensures |Core(w)| <= |w + rest|
    ensures SplitWhitespace((w + rest)[|Core(w)|..]) == SplitWhitespace(rest)
  {
    var sp := w[|Core(w)|..];
    DropFront(w, rest, |Core(w)|);
    SkipSpaces(sp, rest);
  }

  lemma SplitNext(w: string, t: string)
    requires IsWord(w)
    ensures SplitWhitespace(w + " " + t) == [Core(w)] + SplitWhitespace(t)
  {
    hide SplitWhitespace, Core, IsWord;
    SkipSpaces(" ", t);
    SplitFirst(w, " " + t);
    assert w + " " + t == w + (" " + t);
  }

  lemma SplitEmpty()
    ensures SplitWhitespace([]) == []
  {
  }

  /** Joining words by blanks and splitting on white space gives the words back. */
  lemma {:induction false} SplitOfJoin(ws: seq<string>)
    requires forall i :: 0 <= i < |ws| ==> IsWord(ws[i])
    ensures SplitWhitespace(Join(ws)) == Cores(ws)
  {
    hide SplitWhitespace, Core, IsWord, IsSpace;
    if ws == [] {
      SplitEmpty();
    } else {
      if |ws| == 1 {
        SplitEmpty();
        SplitFirst(ws[0], []);
        assert ws[0] + [] == ws[0];
        assert Cores(ws) == [Core(ws[0])] + [];
      } else {
        SplitOfJoin(ws[1..]);
        SplitNext(ws[0], Join(ws[1..]));
        assert Cores(ws) == [Core(ws[0])] + Cores(ws[1..]);
      }
    }
  }

  // ---------- what the text looks like ----------

  /** White space among the ASCII characters: tab, line feed, vertical tab, form feed, carriage return, blank. */
  predicate Blank(c: char) {
    c as int in {9, 10, 11, 12, 13, 32}
  }

  /** Words, each with what separates it from the next. */
  function Spaced(words: seq<string>, gaps: seq<string>): string
    requires |words| == |gaps|
  {
    if words == [] then [] else words[0] + gaps[0] + Spaced(words[1..], gaps[1..])
  }

  predicate Plain(w: string) {
    w != [] && forall i :: 0 <= i < |w| ==> !Blank(w[i])
  }

  predicate AllBlank(s: string) {
    forall i :: 0 <= i < |s| ==> Blank(s[i])
  }

  /** Words without white space, and white space between any two of them. */
  predicate WellSpaced(words: seq<string>, gaps: seq<string>)
    requires |words| == |gaps|
  {
    words == []
    || (Plain(words[0]) && AllBlank(gaps[0]) && (gaps[0] == [] ==> |gaps| == 1) && WellSpaced(words[1..], gaps[1..]))
  }

  lemma {:induction false} CoreOfPlain(w: string)
    requires forall i :: 0 <= i < |w| ==> !Blank(w[i])
    ensures Core(w) == w
  {
    if w != [] {
      CoreOfPlain(w[1..]);
      assert w == [w[0]] + w[1..];
    }
  }

  lemma SplitPlain(w: string, gap: string, rest: string)
    requires Plain(w) && AllBlank(gap) && (gap == [] ==> rest == [])
    ensures SplitWhitespace(w + (gap + rest)) == [w] + SplitWhitespace(gap + rest)
  {
    CoreOfPlain(w);
    assert w[|w|..] == [];
    SplitFirst(w, gap + rest);
  }

  /** Whatever the white space around them, splitting finds exactly the words. */
  lemma {:induction false} SplitOfSpaced(lead: string, words: seq<string>, gaps: seq<string>)
    requires |words| == |gaps| && WellSpaced(words, gaps) && AllBlank(lead)
    ensures SplitWhitespace(lead + Spaced(words, gaps)) == words
    decreases |words|
  {
    hide SplitWhitespace, Plain;
    var text := Spaced(words, gaps);
    assert AllSpace(lead);
    SkipSpaces(lead, text);
    if words == [] {
      NothingToSplit();
    } else {
      var rest := Spaced(words[1..], gaps[1..]);
      assert text == words[0] + (gaps[0] + rest);
      SplitPlain(words[0], gaps[0], rest);
      SplitOfSpaced(gaps[0], words[1..], gaps[1..]);
    }
  }

  lemma NothingToSplit()
    ensures SplitWhitespace([]) == []
  {
  }

  /** Joining puts one blank between the words, and nothing else. */
  lemma {:induction false} JoinOfTwo(a: seq<string>, b: seq<string>)
    requires a != [] && b != []
    ensures Join(a + b) == Join(a) + " " + Join(b)
    ensures |a| == 1 ==> Join(a) == a[0]
  {
    if |a| > 1 {
      JoinOfTwo(a[1..], b);
      assert (a + b)[1..] == a[1..] + b;
      var x, y := Join(a[1..]), Join(b);
      assert a[0] + " " + (x + " " + y) == (a[0] + " " + x) + " " + y;
    } else {
      assert (a + b)[1..] == b;
    }
  }

  /** The pieces with commas between them. */
  function WithCommas(ws: seq<string>): string {
    if ws == [] then [] else if |ws| == 1 then ws[0] else ws[0] + "," + WithCommas(ws[1..])
  }

  /** Splitting at commas: the pieces have none, and make up the text with commas between them. */
  lemma {:induction false} SplitCommaExactly(s: string)
    ensures WithCommas(SplitComma(s)) == s
    ensures forall k :: 0 <= k < |SplitComma(s)| ==> ',' !in SplitComma(s)[k]
  {
    if s != [] {
      SplitCommaExactly(s[1..]);
      var rest, ws := SplitComma(s[1..]), SplitComma(s);
      assert s == [s[0]] + s[1..];
      if s[0] == ',' {
        assert ws[1..] == rest;
        assert WithCommas(ws) == [] + "," + WithCommas(rest);
      } else {
        assert ws[1..] == rest[1..] && ws[0] == [s[0]] + rest[0];
        if |rest| > 1 {
          assert WithCommas(ws) == ([s[0]] + rest[0]) + "," + WithCommas(rest[1..]);
          assert WithCommas(ws) == [s[0]] + (rest[0] + "," + WithCommas(rest[1..]));
        }
      }
    }
  }
}
