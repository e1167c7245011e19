/** Byte strings as bits. Bit i of a string is bit i mod 8, lowest first, of byte i / 8. */
module Bits {

  const OT_PARAM := 128
  const OT_BYTES := 16

  type Octet = o: seq<bool> | |o| == 8 witness seq(8, i => false)
  type Bytes = seq<Octet>
  type Block = b: Bytes | |b| == OT_BYTES witness seq(OT_BYTES, i => seq(8, j => false))

  /** bitAt */
  function BitAt(i: nat, data: Bytes): (b: bool)
    requires i < 8 * |data|
  {
    data[i / 8][i % 8]
  }

  function XorOctet(a: Octet, b: Octet): (r: Octet) {
    seq(8, i requires 0 <= i < 8 => a[i] != b[i])
  }

  function MaskOctet(bit: bool, a: Octet): (r: Octet) {
    seq(8, i requires 0 <= i < 8 => bit && a[i])
  }

  function XorBytes(a: Bytes, b: Bytes): (r: Bytes)
    requires |a| == |b|
    ensures |r| == |a|
    ensures forall i :: 0 <= i < 8 * |a| ==> BitAt(i, r) == (BitAt(i, a) != BitAt(i, b))
  {
    seq(|a|, i requires 0 <= i < |a| => XorOctet(a[i], b[i]))
  }

  function MaskBytes(bit: bool, a: Bytes): (r: Bytes)
    ensures |r| == |a|
    ensures forall i :: 0 <= i < 8 * |a| ==> BitAt(i, r) == (bit && BitAt(i, a))
  {
    seq(|a|, i requires 0 <= i < |a| => MaskOctet(bit, a[i]))
  }

  function ZeroBytes(len: nat): (r: Bytes)
    ensures |r| == len && forall i :: 0 <= i < 8 * len ==> !BitAt(i, r)
  {
    seq(len, i => seq(8, j => false))
  }

  /** A string is determined by its length and its bits. */
  lemma SameBits(a: Bytes, b: Bytes)
    requires |a| == |b|
    requires forall i :: 0 <= i < 8 * |a| ==> BitAt(i, a) == BitAt(i, b)
    ensures a == b
  {
    forall k | 0 <= k < |a| ensures a[k] == b[k] {
      forall j | 0 <= j < 8 ensures a[k][j] == b[k][j] {
        var i := 8 * k + j;
        assert i / 8 == k && i % 8 == j;
        assert BitAt(i, a) == BitAt(i, b);
      }
    }
  }

  /** Adding a string twice leaves nothing behind. */
  lemma XorTwice(a: Bytes, b: Bytes)
    requires |a| == |b|
    ensures XorBytes(XorBytes(a, b), b) == a
  {
    SameBits(XorBytes(XorBytes(a, b), b), a);
  }

  lemma XorComm(a: Bytes, b: Bytes)
    requires |a| == |b|
    ensures XorBytes(a, b) == XorBytes(b, a)
  {
    SameBits(XorBytes(a, b), XorBytes(b, a));
  }

  lemma MaskAll(bit: bool, a: Bytes)
    ensures MaskBytes(bit, a) == if bit then a else ZeroBytes(|a|)
  {
    SameBits(MaskBytes(bit, a), if bit then a else ZeroBytes(|a|));
  }

  lemma XorZero(a: Bytes)
    ensures XorBytes(a, ZeroBytes(|a|)) == a
  {
    SameBits(XorBytes(a, ZeroBytes(|a|)), a);
  }

  /** The loop dst[j] ^= mask & src[j], where mask is -bit. */
  method XorMasked(dst: Bytes, bit: bool, src: Bytes) returns (r: Bytes)
    requires |dst| == |src|
    ensures r == XorBytes(dst, MaskBytes(bit, src))
    ensures r == if bit then XorBytes(dst, src) else dst
  {
    r := dst;
    for j := 0 to |src|
      invariant |r| == |dst|
      invariant forall k :: 0 <= k < |dst| ==>
          r[k] == if k < j then XorOctet(dst[k], MaskOctet(bit, src[k])) else dst[k]
    {
      r := r[j := XorOctet(r[j], MaskOctet(bit, src[j]))];
    }
    assert r == XorBytes(dst, MaskBytes(bit, src));
    MaskAll(bit, src);
    XorZero(dst);
  }

  /** The loop a[j] ^= mask & (a[j] ^ b[j]), which selects b when the bit is set. */
  method Select(a: Bytes, bit: bool, b: Bytes) returns (r: Bytes)
    requires |a| == |b|
    ensures r == if bit then b else a
  {
    var difference := XorBytes(a, b);
    r := XorMasked(a, bit, difference);
    XorComm(a, b);
    XorTwice(b, a);
    XorComm(a, difference);
  }

  /** The block whose bit j is bit i of row j. */
  ghost function ColumnOf(i: nat, m: seq<Bytes>): (row: Block)
    requires |m| == OT_PARAM && forall j :: 0 <= j < OT_PARAM ==> i < 8 * |m[j]|
    ensures forall j :: 0 <= j < OT_PARAM ==> BitAt(j, row) == BitAt(i, m[j])
  {
    seq(OT_BYTES, k requires 0 <= k < OT_BYTES =>
      seq(8, b requires 0 <= b < 8 => BitAt(i, m[8 * k + b])))
  }

  ghost function Transposed(l: nat, m: seq<Bytes>): (mt: seq<Block>)
    requires |m| == OT_PARAM && forall j :: 0 <= j < OT_PARAM ==> l <= 8 * |m[j]|
    ensures |mt| == l
  {
    seq(l, i requires 0 <= i < l => ColumnOf(i, m))
  }

  /** transposeBits: bit j of row i of the result is bit i of row j. */
  method TransposeBits(l: nat, m: seq<Bytes>) returns (mt: seq<Block>)
    requires |m| == OT_PARAM && forall j :: 0 <= j < OT_PARAM ==> l <= 8 * |m[j]|
    ensures |mt| == l
    ensures forall i, j :: 0 <= i < l && 0 <= j < OT_PARAM ==> BitAt(j, mt[i]) == BitAt(i, m[j])
    ensures mt == Transposed(l, m)
  {
    hide BitAt, ColumnOf;
    mt := seq(l, i => ZeroBytes(OT_BYTES));
    for i := 0 to l
      invariant |mt| == l
      invariant forall r :: 0 <= r < i ==> mt[r] == ColumnOf(r, m)
    {
      var row := TransposeRow(i, m);
      mt := mt[i := row];
    }
  }

  /** The inner loop: MT[i][j>>3] |= bit << (j & 7), starting from zeros. */
  method TransposeRow(i: nat, m: seq<Bytes>) returns (row: Block)
    requires |m| == OT_PARAM && forall j :: 0 <= j < OT_PARAM ==> i < 8 * |m[j]|
    ensures row == ColumnOf(i, m)
  {
    row := ZeroBytes(OT_BYTES);
    for j := 0 to OT_PARAM
      invariant forall k :: 0 <= k < OT_PARAM ==> BitAt(k, row) == (k < j && BitAt(i, m[k]))
    {
      row := OrBit(row, j, BitAt(i, m[j]));
    }
    SameBits(row, ColumnOf(i, m));
  }

  function OrBit(row: Block, j: nat, bit: bool): (r: Block)
    requires j < OT_PARAM
    ensures forall k :: 0 <= k < OT_PARAM ==> BitAt(k, r) == (BitAt(k, row) || (k == j && bit))
  {
    row[j / 8 := row[j / 8][j % 8 := row[j / 8][j % 8] || bit]]
  }
}
