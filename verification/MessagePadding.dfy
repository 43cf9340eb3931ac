/**
 The block padding of message bodies (crypto.rs): a 0x80 marker followed by zero bytes up to a
 multiple of 160.
 */
module MessagePadding {
  import opened Wrappers

  newtype byte = x: int | 0 <= x < 0x100

  const MARKER: byte := 0x80
  const BLOCK: nat := 160

  function Zeros(n: nat): (z: seq<byte>)
    ensures |z| == n && forall i :: 0 <= i < n ==> z[i] == 0
  {
    seq(n, _ => 0)
  }

  /** The position of the last byte that is not zero (`rposition`). */
  function LastNonZero(data: seq<byte>): (p: Option<nat>)
    ensures p.None? ==> forall i :: 0 <= i < |data| ==> data[i] == 0
    ensures p.Some? ==> p.value < |data| && data[p.value] != 0
    ensures p.Some? ==> forall i :: p.value < i < |data| ==> data[i] == 0
  {
    if data == [] then None
    else if data[|data| - 1] != 0 then Some(|data| - 1)
    else LastNonZero(data[..|data| - 1])
  }

  function StripMessagePadding(data: seq<byte>): seq<byte> {
    match LastNonZero(data)
    case Some(start) => if data[start] == MARKER then data[..start] else data
    case None => data
  }

  /** How many zero bytes follow the marker of a message of `len` bytes. */
  function ZerosAfterMarker(len: nat): (n: nat) {
    BLOCK - (len + 1) % BLOCK
  }

  function Padded(data: seq<byte>): seq<byte> {
    data + [MARKER] + Zeros(ZerosAfterMarker(|data|))
  }

  method PadMessage(data: seq<byte>) returns (owned: seq<byte>)
    ensures owned == Padded(data)
    ensures StripMessagePadding(owned) == data
    ensures |owned| % 160 == 0 && |data| + 1 < |owned| <= |data| + 161
  {
    owned := data;
    owned := owned + [MARKER];
    var padding := BLOCK - |owned| % BLOCK;
    var newLen := |owned| + padding;
    owned := owned + Zeros(newLen - |owned|);
    RoundTrip(data);
    PaddedLength(data);
  }

  /** `data` is `core`, the marker, and any number of zero bytes. */
  ghost predicate Carries(data: seq<byte>, core: seq<byte>) {
    |core| < |data| && data == core + [0x80] + Zeros(|data| - |core| - 1)
  }

  /**
   Stripping removes a marker with its zeros when there is one, and nothing otherwise; what is
   left is the only body the bytes can carry.
   */
  lemma StripRemovesExactlyThePadding(data: seq<byte>, core: seq<byte>)
    ensures Carries(data, core) ==> StripMessagePadding(data) == core
    ensures StripMessagePadding(data) == core && core != data ==> Carries(data, core)
    ensures (forall c :: !Carries(data, c)) ==> StripMessagePadding(data) == data
  {
    if Carries(data, core) {
      assert data[|core|] == MARKER;
      assert forall i :: |core| < i < |data| ==> data[i] == 0;
      assert LastNonZero(data) == Some(|core|);
    }
    var s := StripMessagePadding(data);
    if s != data {
      assert s == data[..|s|] && data[|s|] == MARKER;
      assert data == s + [MARKER] + Zeros(|data| - |s| - 1);
      assert Carries(data, s);
    }
  }

  lemma RoundTrip(data: seq<byte>)
    ensures StripMessagePadding(Padded(data)) == data
  {
    assert Carries(Padded(data), data);
    StripRemovesExactlyThePadding(Padded(data), data);
  }

  /** The padded length is the least multiple of 160 strictly above the body and its marker. */
  lemma PaddedLength(data: seq<byte>)
    ensures |Padded(data)| % 160 == 0
    ensures |Padded(data)| > |data| + 1
    ensures forall m: nat :: m % 160 == 0 && m > |data| + 1 ==> m >= |Padded(data)|
  {
    var len := |data| + 1;
    assert |Padded(data)| == BLOCK * (len / BLOCK + 1);
    forall m: nat | m % BLOCK == 0 && m > len
      ensures m >= |Padded(data)|
    {
      assert m / BLOCK > len / BLOCK;
    }
  }

  /** The padded length reveals the body's length up to its block and no more. */
  lemma EqualLengthsSameBlock(a: seq<byte>, b: seq<byte>)
    ensures |Padded(a)| == |Padded(b)| <==> (|a| + 1) / 160 == (|b| + 1) / 160
  {
    assert |Padded(a)| == BLOCK * ((|a| + 1) / BLOCK + 1);
    assert |Padded(b)| == BLOCK * ((|b| + 1) / BLOCK + 1);
  }

  /** Padding keeps the body in front, and puts 0x80 and then only zeros behind it. */
  lemma PaddedBytes(data: seq<byte>)
    ensures var p := Padded(data);
            && |p| > |data| && p[..|data|] == data && p[|data|] == 0x80
            && forall i :: |data| < i < |p| ==> p[i] == 0
  {
  }
}
