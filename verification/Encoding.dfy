/** Big-endian encodings of scalars, and the weight of every bit in them. */
module Encoding {
  import opened Zq
  import opened Party
  import opened Bits

  const SCALAR_BYTES := 32

  function Pow2(k: nat): (r: nat)
    ensures r > 0
  {
    if k == 0 then 1 else 2 * Pow2(k - 1)
  }

  lemma {:induction false} Pow2Add(a: nat, b: nat)
    ensures Pow2(a + b) == Pow2(a) * Pow2(b)
  {
    if a != 0 {
      Pow2Add(a - 1, b);
      assert a + b - 1 == a - 1 + b;
      Associate(2, Pow2(a - 1), Pow2(b));
    }
  }

  lemma Pow2Byte(k: nat)
    ensures Pow2(k + 8) == 256 * Pow2(k)
  {
    assert Pow2(k + 2) == 4 * Pow2(k);
    assert Pow2(k + 4) == 4 * Pow2(k + 2);
    assert Pow2(k + 6) == 4 * Pow2(k + 4);
    assert Pow2(k + 8) == 4 * Pow2(k + 6);
  }

  /** The lowest n bits of a number, lowest first. */
  function LowBits(v: nat, n: nat): (r: seq<bool>)
    ensures |r| == n
  {
    if n == 0 then [] else [v % 2 == 1] + LowBits(v / 2, n - 1)
  }

  /** The number spelled by the lowest j bits. */
  function Low(o: seq<bool>, j: nat): (r: nat)
    requires j <= |o|
  {
    if j == 0 then 0 else Low(o, j - 1) + if o[j - 1] then Pow2(j - 1) else 0
  }

  lemma {:induction false} LowSplit(o: seq<bool>, j: nat)
    requires j < |o|
    ensures Low(o, j + 1) == (if o[0] then 1 else 0) + 2 * Low(o[1..], j)
  {
    if j == 0 {
      assert Low(o, 1) == Low(o, 0) + if o[0] then Pow2(0) else 0;
    } else {
      LowSplit(o, j - 1);
    }
  }

  lemma {:induction false} LowBitsValue(v: nat, n: nat)
    requires v < Pow2(n)
    ensures Low(LowBits(v, n), n) == v
  {
    if n != 0 {
      var o := LowBits(v, n);
      LowBitsValue(v / 2, n - 1);
      assert o[1..] == LowBits(v / 2, n - 1);
      LowSplit(o, n - 1);
    }
  }

  function OctetOf(v: nat): (o: Octet)
    requires v < 256
  {
    LowBits(v, 8)
  }

  function OctetValue(o: Octet): (r: nat) {
    Low(o, 8)
  }

  lemma OctetRoundTrip(v: nat)
    requires v < 256
    ensures OctetValue(OctetOf(v)) == v
  {
    Pow2Byte(0);
    LowBitsValue(v, 8);
  }

  lemma {:induction false} LowZero(o: seq<bool>, j: nat)
    requires j <= |o| && forall i :: 0 <= i < j ==> !o[i]
    ensures Low(o, j) == 0
  {
    if j != 0 {
      LowZero(o, j - 1);
    }
  }

  function BigEndian(v: nat, n: nat): (b: Bytes)
    ensures |b| == n
  {
    if n == 0 then [] else BigEndian(v / 256, n - 1) + [OctetOf(v % 256)]
  }

  function Value(b: Bytes): (v: nat) {
    if |b| == 0 then 0 else 256 * Value(b[..|b| - 1]) + OctetValue(b[|b| - 1])
  }

  lemma {:induction false} BigEndianRoundTrip(v: nat, n: nat)
    requires v < Pow2(8 * n)
    ensures Value(BigEndian(v, n)) == v
  {
    if n != 0 {
      var b := BigEndian(v, n);
      Pow2Byte(8 * (n - 1));
      BigEndianRoundTrip(v / 256, n - 1);
      assert b[..n - 1] == BigEndian(v / 256, n - 1) && b[n - 1] == OctetOf(v % 256);
      OctetRoundTrip(v % 256);
    }
  }

  lemma {:induction false} ZeroValue(n: nat)
    ensures Value(ZeroBytes(n)) == 0
  {
    if n != 0 {
      assert ZeroBytes(n)[..n - 1] == ZeroBytes(n - 1);
      ZeroValue(n - 1);
      LowZero(ZeroBytes(n)[n - 1], 8);
    }
  }

  lemma Pow2Double(k: nat, c: nat)
    requires Pow2(k) == c
    ensures Pow2(2 * k) == c * c
  {
    Pow2Add(k, k);
  }

  lemma Pow2Order(k: nat)
    requires k == 8
    ensures Pow2(32 * k) == TWO_256
  {
    Pow2Byte(k - 8);
    hide Pow2;
    Pow2Double(k, 0x100);
    Pow2Double(2 * k, 0x1_0000);
    Pow2Double(4 * k, 0x1_0000_0000);
    Pow2Double(8 * k, 0x1_0000_0000_0000_0000);
    Pow2Double(16 * k, 0x1_0000_0000_0000_0000_0000_0000_0000_0000);
  }

  lemma ScalarFits(s: Scalar)
    ensures s < Pow2(8 * SCALAR_BYTES)
  {
    hide Pow2;
    Pow2Order(8);
  }

  /** MarshalBinary of a scalar. */
  function ScalarBytes(s: Scalar): (b: Bytes)
    ensures |b| == SCALAR_BYTES
  {
    BigEndian(s, SCALAR_BYTES)
  }

  /** UnmarshalBinary of a scalar: 32 bytes spelling a number below the order. */
  function ScalarFromBytes(b: Bytes): (r: Option<Scalar>) {
    if |b| == SCALAR_BYTES && Value(b) < Q then Some(Value(b)) else None
  }

  lemma ScalarRoundTrip(s: Scalar)
    ensures ScalarFromBytes(ScalarBytes(s)) == Some(s)
    ensures ScalarFromBytes(ZeroBytes(SCALAR_BYTES)) == Some(0)
  {
    hide Pow2;
    ScalarFits(s);
    BigEndianRoundTrip(s, SCALAR_BYTES);
    ZeroValue(SCALAR_BYTES);
  }

  lemma {:induction false} LowInverse(o: seq<bool>, n: nat)
    requires |o| == n
    ensures Low(o, n) < Pow2(n) && LowBits(Low(o, n), n) == o
  {
    if n != 0 {
      LowInverse(o[1..], n - 1);
      LowSplit(o, n - 1);
    }
  }

  lemma OctetInverse(o: Octet)
    ensures OctetValue(o) < 256 && OctetOf(OctetValue(o)) == o
  {
    Pow2Byte(0);
    LowInverse(o, 8);
  }

  lemma {:induction false} BigEndianInverse(b: Bytes)
    ensures BigEndian(Value(b), |b|) == b
  {
    hide OctetValue, OctetOf;
    if |b| != 0 {
      var n := |b| - 1;
      BigEndianInverse(b[..n]);
      OctetInverse(b[n]);
      assert b == b[..n] + [b[n]];
    }
  }

  /** Only one string decodes to a scalar, the one it is encoded as; so a number not below the order is refused. */
  lemma ScalarCanonical(b: Bytes, s: Scalar)
    ensures ScalarFromBytes(b) == Some(s) <==> b == ScalarBytes(s)
  {
    ScalarRoundTrip(s);
    BigEndianInverse(b);
    hide BigEndian, Value;
  }

  // ------------------------------------------------------------- weights of bits

  /** The exponent of two that bit i of an n-byte big-endian string stands for. */
  function BitWeight(n: nat, i: nat): (w: nat)
    requires i < 8 * n
  {
    8 * (n - 1 - i / 8) + i % 8
  }

  ghost function Weighed(b: Bytes, i: nat): nat
    requires i <= 8 * |b|
  {
    if i == 0 then 0 else Weighed(b, i - 1) + if BitAt(i - 1, b) then Pow2(BitWeight(|b|, i - 1)) else 0
  }

  lemma WeighedStep(b: Bytes, k: nat, j: nat)
    requires k < |b| && j < 8
    ensures Weighed(b, 8 * k + j + 1) ==
            Weighed(b, 8 * k + j) + if b[k][j] then Pow2(j + 8 * (|b| - 1 - k)) else 0
  {
    hide Pow2, BitWeight, BitAt;
    WeightOf(b, k, j);
    assert 8 * k + j + 1 - 1 == 8 * k + j;
    var i := 8 * k + j + 1;
    assert Weighed(b, i) == Weighed(b, i - 1) + if BitAt(i - 1, b) then Pow2(BitWeight(|b|, i - 1)) else 0;
  }

  lemma WeightOf(b: Bytes, k: nat, j: nat)
    requires k < |b| && j < 8
    ensures 8 * k + j < 8 * |b|
    ensures BitWeight(|b|, 8 * k + j) == j + 8 * (|b| - 1 - k)
    ensures BitAt(8 * k + j, b) == b[k][j]
  {
    hide Pow2;
    var i := 8 * k + j;
    assert i / 8 == k && i % 8 == j;
  }

  lemma {:induction false} WeighedOctet(b: Bytes, k: nat, j: nat)
    requires k < |b| && j <= 8
    ensures Weighed(b, 8 * k + j) == Weighed(b, 8 * k) + Low(b[k], j) * Pow2(8 * (|b| - 1 - k))
  {
    hide Pow2, Weighed;
    if j != 0 {
      WeighedOctet(b, k, j - 1);
      WeighedStep(b, k, j - 1);
      Pow2Add(j - 1, 8 * (|b| - 1 - k));
      MulSum(Pow2(8 * (|b| - 1 - k)), Low(b[k], j - 1), Pow2(j - 1));
    }
  }

  lemma {:induction false} WeighedBytes(b: Bytes, k: nat)
    requires k <= |b|
    ensures Weighed(b, 8 * k) == Value(b[..k]) * Pow2(8 * (|b| - k))
  {
    if k != 0 {
      hide Weighed, Pow2;
      WeighedBytes(b, k - 1);
      WeighedOctet(b, k - 1, 8);
      var p := Pow2(8 * (|b| - k));
      Pow2Byte(8 * (|b| - k));
      assert b[..k][..k - 1] == b[..k - 1];
      Regroup(Value(b[..k - 1]), OctetValue(b[k - 1]), p);
    }
  }

  lemma Regroup(v: int, o: int, p: int)
    ensures v * (256 * p) + o * p == (256 * v + o) * p
  {
  }

  /** The bits of a string, each weighed by its power of two, add up to the number it spells. */
  lemma WeighedIsValue(b: Bytes)
    ensures Weighed(b, 8 * |b|) == Value(b)
  {
    WeighedBytes(b, |b|);
    assert b[..|b|] == b;
  }
}
