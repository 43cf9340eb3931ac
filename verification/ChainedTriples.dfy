/**
 The numbers behind the words of a recovery phrase: three word numbers below `n` with chained
 offsets stand for one number below n cubed (mnemonic/codec.rs). Writing and reading are shown to be
 inverse to each other, and what is shown is packed into `Bijective`, so that the codec's own proofs
 need not go back to the arithmetic of division and remainder.
 */
module ChainedTriples {
  import opened HexText

  /** encode: a number's three word numbers. */
  function Split(n: nat, x: nat): (nat, nat, nat)
    requires n > 0
  {
    var w1 := x % n;
    var w2 := (x / n + w1) % n;
    var w3 := (x / n / n + w2) % n;
    (w1, w2, w3)
  }

  /** decode: the number three word numbers stand for. */
  function Value(n: nat, w1: nat, w2: nat, w3: nat): nat
    requires w1 < n && w2 < n && w3 < n
  {
    w1 + n * ((n - w1 + w2) % n) + n * n * ((n - w2 + w3) % n)
  }

  lemma Distribute(n: int, b: int, c: int)
    ensures n * (b + n * c) == n * b + n * n * c
  {
    assert n * (b + n * c) == n * b + n * (n * c);
  }

  lemma LexBound(n: int, m: int, a: int, k: int)
    requires 0 <= a < n && 0 <= m < k
    ensures a + n * m < n * k
  {
    assert n * m <= n * (k - 1);
  }

  /** Adding a multiple of the base changes no remainder. */
  lemma ModOfShift(n: nat, b: nat, c: nat, a: nat)
    requires n > 0
    ensures (b + n * c + a) % n == (b + a) % n
  {
    var q, r := (b + a) / n, (b + a) % n;
    assert n * (q + c) == n * q + n * c;
    ModUnique(b + n * c + a, n, q + c, r);
  }

  /** The offset a digit is chained with is undone by the one subtracted when reading, and back. */
  lemma ModOffset(n: nat, a: nat, b: nat)
    requires a < n && b < n
    ensures (n - a + (b + a) % n) % n == b
    ensures ((n - a + b) % n + a) % n == b
  {
    if b + a < n {
      ModUnique(b + a, n, 0, b + a);
      ModUnique(n + b, n, 1, b);
    } else {
      ModUnique(b + a, n, 1, b + a - n);
      ModUnique(b, n, 0, b);
    }
    if b < a {
      ModUnique(n - a + b, n, 0, n - a + b);
      ModUnique(n + b, n, 1, b);
    } else {
      ModUnique(n - a + b, n, 1, b - a);
      ModUnique(b, n, 0, b);
    }
  }

  /** The digits of a three-digit number. */
  lemma DigitsOfNumber(n: nat, a: nat, b: nat, c: nat, x: nat)
    requires a < n && b < n && c < n && x == a + n * b + n * n * c
    ensures x % n == a && x / n == b + n * c && x / n / n == c && x < n * n * n
  {
    var m := b + n * c;
    Distribute(n, b, c);
    LexBound(n, c, b, n);
    LexBound(n, m, a, n * n);
    assert n * (n * n) == n * n * n;
    ModUnique(x, n, m, a);
    ModUnique(m, n, c, b);
  }

  lemma DivLess(x: nat, n: nat, k: nat) returns (q: nat, r: nat)
    requires n > 0 && x < n * k
    ensures q < k && r < n && x == n * q + r
  {
    q, r := x / n, x % n;
    assert q >= k ==> n * q >= n * k;
  }

  lemma NumberOfDigits(n: nat, x: nat) returns (a: nat, b: nat, c: nat)
    requires n > 0 && x < n * n * n
    ensures a < n && b < n && c < n && x == a + n * b + n * n * c
  {
    assert x < n * (n * n);
    var m;
    m, a := DivLess(x, n, n * n);
    c, b := DivLess(m, n, n);
    Distribute(n, b, c);
  }

  lemma SplitOfDigits(n: nat, a: nat, b: nat, c: nat, x: nat)
    requires a < n && b < n && c < n && x == a + n * b + n * n * c
    ensures Split(n, x) == (a, (b + a) % n, (c + (b + a) % n) % n)
  {
    DigitsOfNumber(n, a, b, c, x);
    ModOfShift(n, b, c, a);
  }

  lemma ValueOfDigits(n: nat, a: nat, b: nat, c: nat)
    requires a < n && b < n && c < n
    ensures Value(n, a, (b + a) % n, (c + (b + a) % n) % n) == a + n * b + n * n * c
  {
    ModOffset(n, a, b);
    ModOffset(n, (b + a) % n, c);
  }

  /** A number below n cubed is the value of the triple it splits into. */
  lemma ValueOfSplit(n: nat, x: nat)
    requires n > 0 && x < n * n * n
    ensures Value(n, Split(n, x).0, Split(n, x).1, Split(n, x).2) == x
  {
    var a, b, c := NumberOfDigits(n, x);
    SplitOfDigits(n, a, b, c, x);
    ValueOfDigits(n, a, b, c);
  }

  /** A triple's value is below n cubed, passes the decoder's own check, and splits back into the triple. */
  lemma SplitOfValue(n: nat, w1: nat, w2: nat, w3: nat)
    requires w1 < n && w2 < n && w3 < n
    ensures Value(n, w1, w2, w3) < n * n * n
    ensures Value(n, w1, w2, w3) % n == w1
    ensures Split(n, Value(n, w1, w2, w3)) == (w1, w2, w3)
  {
    var b, c := (n - w1 + w2) % n, (n - w2 + w3) % n;
    var x := Value(n, w1, w2, w3);
    DigitsOfNumber(n, w1, b, c, x);
    SplitOfDigits(n, w1, b, c, x);
    ModOffset(n, w1, w2);
    ModOffset(n, w2, w3);
  }

  /** A number too large for three words decodes to another number. */
  lemma SplitLosesLargeNumbers(n: nat, x: nat)
    requires n > 0 && x >= n * n * n
    ensures Value(n, Split(n, x).0, Split(n, x).1, Split(n, x).2) != x
  {
    SplitOfValue(n, Split(n, x).0, Split(n, x).1, Split(n, x).2);
  }

  lemma MulMonotone(k: nat, x: int, y: int)
    requires x <= y
    ensures k * x <= k * y
  {
  }

  /** 1626 words are the fewest whose triples cover four bytes. */
  lemma EnoughTriples(n: nat)
    ensures n * n * n >= 0x1_0000_0000 <==> n >= 1626
  {
    if n >= 1626 {
      MulMonotone(n, 1626, n);
      MulMonotone(n * n, 1626, n);
    } else {
      MulMonotone(n, n, 1625);
      MulMonotone(n * n, n, 1625);
    }
  }

  /** A way of writing numbers below `size` as three digits below `base`. */
  datatype Numerals = Numerals(
    base: nat,
    size: nat,
    split: nat -> (nat, nat, nat),
    join: (nat, nat, nat) -> nat,
    lowest: nat -> nat)

  /** Splitting and joining are inverse bijections between the numbers below `size` and the triples below `base`. */
  ghost predicate Bijective(d: Numerals) {
    && d.base > 0
    && (forall x: nat :: d.split(x).0 < d.base && d.split(x).1 < d.base && d.split(x).2 < d.base)
    && (forall x: nat :: x < d.size <==> d.join(d.split(x).0, d.split(x).1, d.split(x).2) == x)
    && (forall a: nat, b: nat, c: nat :: a < d.base && b < d.base && c < d.base ==>
          d.join(a, b, c) < d.size && d.lowest(d.join(a, b, c)) == a && d.split(d.join(a, b, c)) == (a, b, c))
  }

  function ChainedNumerals(n: nat): Numerals
    requires n > 0
  {
    Numerals(n, n * n * n,
             (x: nat) => Split(n, x),
             (a: nat, b: nat, c: nat) => if a < n && b < n && c < n then Value(n, a, b, c) else 0,
             (x: nat) => x % n)
  }

  lemma ChainedNumeralsAreBijective(n: nat)
    requires n > 0
    ensures Bijective(ChainedNumerals(n))
  {
    var d := ChainedNumerals(n);
    forall x: nat
      ensures x < d.size <==> d.join(d.split(x).0, d.split(x).1, d.split(x).2) == x
    {
      if x < n * n * n {
        ValueOfSplit(n, x);
      } else {
        SplitLosesLargeNumbers(n, x);
      }
    }
    forall a: nat, b: nat, c: nat | a < n && b < n && c < n
      ensures d.join(a, b, c) < d.size && d.lowest(d.join(a, b, c)) == a && d.split(d.join(a, b, c)) == (a, b, c)
    {
      SplitOfValue(n, a, b, c);
    }
  }
}
