/**
 Hexadecimal text: what `{:x}`, `{:X}`, `u64::from_str_radix(_, 16)` and the `hex` crate do to
 non-negative numbers and bytes. `LowerHex` and `UpperHex` print without leading zeros, `FixedHex` at a
 given width; `ParseHex` reads either case. The lemmas say what comes back, which characters are used,
 and how the value of a text is made up of those of its parts.
 */
module HexText {

  predicate IsHexDigit(c: char) {
    '0' <= c <= '9' || 'a' <= c <= 'f' || 'A' <= c <= 'F'
  }

  predicate IsHex(s: string) {
    forall i :: 0 <= i < |s| ==> IsHexDigit(s[i])
  }

  function DigitValue(c: char): (d: nat)
    requires IsHexDigit(c)
    ensures d < 16
  {
    if '0' <= c <= '9' then c as int - '0' as int
    else if 'a' <= c <= 'f' then c as int - 'a' as int + 10
    else c as int - 'A' as int + 10
  }

  function LowerDigit(d: nat): (c: char)
    requires d < 16
    ensures IsHexDigit(c) && DigitValue(c) == d
  {
    if d < 10 then '0' + d as char else 'a' + (d - 10) as char
  }

  function UpperDigit(d: nat): (c: char)
    requires d < 16
    ensures IsHexDigit(c) && DigitValue(c) == d
  {
    if d < 10 then '0' + d as char else 'A' + (d - 10) as char
  }

  function Lower(s: string): (t: string)
    requires IsHex(s)
    ensures |t| == |s| && IsHex(t)
    ensures forall i :: 0 <= i < |s| ==> t[i] == LowerDigit(DigitValue(s[i]))
  {
    seq(|s|, i requires 0 <= i < |s| => LowerDigit(DigitValue(s[i])))
  }

  /** The shortest lower-case numeral of `x` (`{:x}`). */
  function LowerHex(x: nat): (s: string)
    ensures |s| >= 1 && IsHex(s)
  {
    if x < 16 then [LowerDigit(x)] else LowerHex(x / 16) + [LowerDigit(x % 16)]
  }

  /** The shortest upper-case numeral of `x` (`{:X}`). */
  function UpperHex(x: nat): (s: string)
    ensures |s| >= 1 && IsHex(s)
  {
    if x < 16 then [UpperDigit(x)] else UpperHex(x / 16) + [UpperDigit(x % 16)]
  }

  /** The value of a numeral, either case. */
  function ParseHex(s: string): nat
    requires IsHex(s)
  {
    if s == [] then 0 else ParseHex(s[..|s| - 1]) * 16 + DigitValue(s[|s| - 1])
  }

  /** The last `k` digits of `x`, zero-padded, lower case. */
  function FixedHex(x: nat, k: nat): (s: string)
    ensures |s| == k && IsHex(s)
  {
    if k == 0 then [] else FixedHex(x / 16, k - 1) + [LowerDigit(x % 16)]
  }

  function ZeroDigits(k: nat): (s: string)
    ensures |s| == k && IsHex(s)
  {
    seq(k, _ => '0')
  }

  function Pow16(k: nat): (p: nat)
    ensures p > 0
  {
    if k == 0 then 1 else 16 * Pow16(k - 1)
  }

  lemma Pow16Of8()
    ensures Pow16(8) == 0x1_0000_0000
  {
    assert Pow16(2) == 256;
    assert Pow16(4) == 256 * 256;
    assert Pow16(6) == 256 * 256 * 256;
  }

  lemma ParseSnoc(s: string, c: char)
    requires IsHex(s) && IsHexDigit(c)
    ensures IsHex(s + [c]) && ParseHex(s + [c]) == ParseHex(s) * 16 + DigitValue(c)
  {
    assert (s + [c])[..|s|] == s;
  }

  /** Printing in upper case and parsing back gives the number: a numeral names one number only. */
  lemma {:induction false} ParseUpperHex(x: nat)
    ensures ParseHex(UpperHex(x)) == x
  {
    if x < 16 {
      ParseSnoc([], UpperDigit(x));
      assert [] + [UpperDigit(x)] == [UpperDigit(x)];
    } else {
      ParseUpperHex(x / 16);
      ParseSnoc(UpperHex(x / 16), UpperDigit(x % 16));
    }
  }

  /** Parsing `k` fixed digits loses exactly what does not fit in `k` digits. */
  lemma {:induction false} ParseFixedHex(x: nat, k: nat)
    ensures ParseHex(FixedHex(x, k)) == x % Pow16(k)
  {
    if k > 0 {
      ParseFixedHex(x / 16, k - 1);
      ParseSnoc(FixedHex(x / 16, k - 1), LowerDigit(x % 16));
      DivModShift(x, Pow16(k - 1));
    }
  }

  lemma DivModShift(x: nat, p: nat)
    requires p > 0
    ensures (x / 16) % p * 16 + x % 16 == x % (16 * p)
  {
    var q, r := x / 16 / p, (x / 16) % p;
    assert x == 16 * (p * q + r) + x % 16;
    assert 16 * (p * q + r) == (16 * p) * q + 16 * r by {
      assert 16 * (p * q) == (16 * p) * q;
    }
    var rest := 16 * r + x % 16;
    assert x == (16 * p) * q + rest;
    assert 0 <= rest < 16 * p;
    ModUnique(x, 16 * p, q, rest);
  }

  lemma ModUnique(x: int, m: int, q: int, r: int)
    requires m > 0 && 0 <= r < m && x == m * q + r
    ensures x % m == r && x / m == q
  {
    var d := q - x / m;
    assert m * d == x % m - r by {
      assert x == m * (x / m) + x % m;
      assert m * d == m * q - m * (x / m);
    }
    assert d >= 1 ==> m * d >= m;
    assert d <= -1 ==> m * d <= -m;
  }

  /** Reading a numeral and printing it at its own width normalises the case of its letters. */
  lemma {:induction false} FixedHexOfParse(s: string)
    requires IsHex(s)
    ensures FixedHex(ParseHex(s), |s|) == Lower(s)
  {
    if s != [] {
      var front, last := s[..|s| - 1], s[|s| - 1];
      FixedHexOfParse(front);
      assert ParseHex(s) / 16 == ParseHex(front) && ParseHex(s) % 16 == DigitValue(last);
      assert Lower(s) == Lower(front) + [LowerDigit(DigitValue(last))];
    }
  }

  lemma {:induction false} FixedHexOfZero(k: nat)
    ensures FixedHex(0, k) == ZeroDigits(k)
  {
    if k > 0 {
      FixedHexOfZero(k - 1);
      assert ZeroDigits(k) == ZeroDigits(k - 1) + ['0'];
    }
  }

  lemma TailOfAppend(s: string, t: string, c: char, k: nat)
    requires 0 < k <= |t| + 1
    ensures (s + t + [c])[|s| + |t| + 1 - k..] == t[|t| + 1 - k..] + [c]
  {
  }

  /** Left-padding with `k - 1` zeros and keeping the last `k` characters prints exactly `k` digits. */
  lemma {:induction false} LastDigits(x: nat, k: nat)
    requires k > 0
    ensures (ZeroDigits(k - 1) + LowerHex(x))[|LowerHex(x)| - 1..] == FixedHex(x, k)
  {
    if x < 16 {
      FixedHexOfZero(k - 1);
    } else {
      var h := LowerHex(x / 16);
      var c := LowerDigit(x % 16);
      assert LowerHex(x) == h + [c];
      assert ZeroDigits(k - 1) + (h + [c]) == (ZeroDigits(k - 1) + h) + [c];
      if k > 1 {
        LastDigits(x / 16, k - 1);
        assert ZeroDigits(k - 1) == ['0'] + ZeroDigits(k - 2);
        var t := ZeroDigits(k - 2) + h;
        assert ZeroDigits(k - 1) + h == ['0'] + t;
        TailOfAppend(['0'], t, c, k);
      }
    }
  }

  // ---------- what the text looks like ----------

  predicate LowerHexChar(c: char) {
    c in "0123456789abcdef"
  }

  predicate UpperHexChar(c: char) {
    c in "0123456789ABCDEF"
  }

  /** Lower-case text is its own normal form, and every normal form is lower case. */
  lemma LowerIsLower(s: string)
    requires IsHex(s)
    ensures forall i :: 0 <= i < |s| ==> LowerHexChar(Lower(s)[i])
    ensures (forall i :: 0 <= i < |s| ==> LowerHexChar(s[i])) <==> Lower(s) == s
  {
    forall i | 0 <= i < |s|
      ensures LowerHexChar(Lower(s)[i]) && (LowerHexChar(s[i]) <==> Lower(s)[i] == s[i])
    {
      DigitCases(s[i]);
    }
  }

  lemma DigitCases(c: char)
    requires IsHexDigit(c)
    ensures var d := LowerDigit(DigitValue(c)); LowerHexChar(d) && (LowerHexChar(c) <==> d == c)
  {
    var digits := "0123456789abcdef";
    assert digits[DigitValue(c)] == LowerDigit(DigitValue(c));
  }

  /** The upper-case numeral uses capitals and has no leading zero. */
  lemma {:induction false} UpperHexIsShortest(x: nat)
    ensures forall i :: 0 <= i < |UpperHex(x)| ==> UpperHexChar(UpperHex(x)[i])
    ensures UpperHex(x)[0] == '0' <==> x == 0
    ensures x == 0 ==> UpperHex(x) == "0"
  {
    var digits := "0123456789ABCDEF";
    assert digits[x % 16] == UpperDigit(x % 16);
    if x >= 16 {
      UpperHexIsShortest(x / 16);
    }
  }

  lemma ShiftSum(x: nat, p: nat, y: nat)
    ensures (x * p + y) * 16 == x * (16 * p) + y * 16
  {
    assert x * p * 16 == x * (16 * p);
  }

  lemma ParseLast(b: string)
    requires IsHex(b) && b != []
    ensures ParseHex(b) == ParseHex(b[..|b| - 1]) * 16 + DigitValue(b[|b| - 1])
    ensures Pow16(|b|) == 16 * Pow16(|b| - 1)
  {
  }

  lemma HexConcat(a: string, b: string)
    requires IsHex(a) && IsHex(b)
    ensures IsHex(a + b)
  {
  }

  /** Hex text in front counts as many powers of sixteen more as there are digits behind it. */
  lemma {:induction false} ParseConcat(a: string, b: string)
    requires IsHex(a) && IsHex(b)
    ensures IsHex(a + b) && ParseHex(a + b) == ParseHex(a) * Pow16(|b|) + ParseHex(b)
    decreases |b|
  {
    HexConcat(a, b);
    if b == [] {
      assert a + b == a;
    } else {
      hide ParseHex, Pow16, DigitValue;
      var n := |b| - 1;
      var front := b[..n];
      ParseConcat(a, front);
      assert a + b == (a + front) + [b[n]];
      ParseSnoc(a + front, b[n]);
      ParseLast(b);
      ShiftSum(ParseHex(a), Pow16(n), ParseHex(front));
    }
  }
}
