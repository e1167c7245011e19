/** Word-sliced polynomials over GF(2), as the monochrome check of the extended OT computes them. */
module Gf2 {

  const WORD := 64
  const FIELD_LEN := 2
  const DOUBLE_LEN := 4

  /** A uint64, lowest bit first. */
  type Word = w: seq<bool> | |w| == WORD witness seq(WORD, i => false)

  /** fieldElement and doubleFieldElement: little-endian arrays of words. */
  type Words = seq<Word>

  function Xor(a: Word, b: Word): (r: Word) {
    seq(WORD, i requires 0 <= i < WORD => a[i] != b[i])
  }

  function Or(a: Word, b: Word): (r: Word) {
    seq(WORD, i requires 0 <= i < WORD => a[i] || b[i])
  }

  function And(a: Word, b: Word): (r: Word) {
    seq(WORD, i requires 0 <= i < WORD => a[i] && b[i])
  }

  /** -(bit) as a word: all ones or all zeros. */
  function Mask(bit: bool): (r: Word) {
    seq(WORD, i => bit)
  }

  function Zero(): (r: Word) {
    Mask(false)
  }

  function Shl1(w: Word): (r: Word) {
    seq(WORD, i requires 0 <= i < WORD => i > 0 && w[i - 1])
  }

  function Shr63(w: Word): (r: Word) {
    seq(WORD, i => i == 0 && w[WORD - 1])
  }

  /** The carry into bit i of the two's complement negation ~w + 1. */
  function Carry(w: Word, i: nat): (c: bool)
    requires i <= WORD
  {
    i == 0 || (Carry(w, i - 1) && !w[i - 1])
  }

  function Negate(w: Word): (r: Word) {
    seq(WORD, i requires 0 <= i < WORD => !w[i] != Carry(w, i))
  }

  /** Coefficient n, which is zero outside the words. */
  function At(f: Words, n: int): (b: bool) {
    0 <= n < WORD * |f| && f[n / WORD][n % WORD]
  }

  lemma AtWord(f: Words, i: nat, b: nat)
    requires i < |f| && b < WORD
    ensures 0 <= WORD * i + b < WORD * |f| && At(f, WORD * i + b) == f[i][b]
  {
    var n := WORD * i + b;
    assert n / WORD == i && n % WORD == b;
  }

  function ZeroWords(len: nat): (r: Words)
    ensures |r| == len && forall n :: !At(r, n)
  {
    seq(len, i => Zero())
  }

  // ------------------------------------------------------------------ comparison

  lemma {:induction false} CarryMeans(w: Word, i: nat)
    requires i <= WORD
    ensures Carry(w, i) <==> forall j :: 0 <= j < i ==> !w[j]
  {
    if i != 0 {
      CarryMeans(w, i - 1);
    }
  }

  /** eq: one exactly when all coefficients agree, read off the top bit of acc | -acc. */
  method Eq(f: Words, a: Words) returns (same: bool)
    requires |f| == |a|
    ensures same <==> forall n :: At(f, n) == At(a, n)
  {
    var acc := Zero();
    for i := 0 to |f|
      invariant forall b :: 0 <= b < WORD ==> (acc[b] <==> exists k :: 0 <= k < i && f[k][b] != a[k][b])
    {
      ghost var before := acc;
      acc := Or(acc, Xor(f[i], a[i]));
      forall b | 0 <= b < WORD ensures acc[b] <==> exists k :: 0 <= k < i + 1 && f[k][b] != a[k][b] {
        assert before[b] <==> exists k :: 0 <= k < i && f[k][b] != a[k][b];
      }
    }
    var top := Or(acc, Negate(acc))[WORD - 1];
    CarryMeans(acc, WORD - 1);
    same := !top;
    assert top <==> exists b :: 0 <= b < WORD && acc[b];
    if same {
      forall n ensures At(f, n) == At(a, n) {
        if 0 <= n < WORD * |f| {
          assert !acc[n % WORD];
        }
      }
    } else {
      var b :| 0 <= b < WORD && acc[b];
      var k :| 0 <= k < |f| && f[k][b] != a[k][b];
      AtWord(f, k, b);
      AtWord(a, k, b);
    }
  }

  // ---------------------------------------------------------------------- shifts

  /** shl1: multiplication by X; only the top coefficient can fall out. */
  method ShiftLeft(f: Words) returns (r: Words)
    requires |f| > 0
    ensures |r| == |f|
    ensures forall n :: 0 <= n < WORD * |f| ==> At(r, n) == At(f, n - 1)
  {
    r := f;
    var i := |f| - 1;
    while i > 0
      invariant 0 <= i < |f| == |r|
      invariant r[..i + 1] == f[..i + 1]
      invariant forall k :: i < k < |f| ==> r[k] == Or(Shl1(f[k]), Shr63(f[k - 1]))
    {
      r := r[i := Or(Shl1(r[i]), Shr63(r[i - 1]))];
      i := i - 1;
    }
    r := r[0 := Shl1(r[0])];
    forall n | 0 <= n < WORD * |f| ensures At(r, n) == At(f, n - 1) {
      ShiftedBit(f, r, n);
    }
  }

  lemma ShiftedBit(f: Words, r: Words, n: nat)
    requires 0 < |f| == |r| && n < WORD * |f|
    requires r[0] == Shl1(f[0])
    requires forall k :: 0 < k < |f| ==> r[k] == Or(Shl1(f[k]), Shr63(f[k - 1]))
    ensures At(r, n) == At(f, n - 1)
  {
    var k, b := n / WORD, n % WORD;
    assert At(r, n) == r[k][b];
    if b > 0 {
      AtWord(f, k, b - 1);
      assert Shl1(f[k])[b] == f[k][b - 1];
      assert k > 0 ==> r[k] == Or(Shl1(f[k]), Shr63(f[k - 1])) && !Shr63(f[k - 1])[b];
    } else if k > 0 {
      AtWord(f, k - 1, WORD - 1);
      assert r[k][b] == f[k - 1][WORD - 1];
    }
  }

  // -------------------------------------------------------------------- products

  /** The sum over k < m of a_k * b_(n-k). */
  ghost function Conv(a: Words, b: Words, n: int, m: nat): bool {
    if m == 0 then false else Conv(a, b, n, m - 1) != (At(a, m - 1) && At(b, n - (m - 1)))
  }

  /** Coefficient n of the unreduced product of a and b. */
  ghost function Product(a: Words, b: Words, n: int): bool {
    Conv(a, b, n, WORD * |a|)
  }

  /** The terms of Conv whose index k has k % 64 > i, or k % 64 == i within the first J words. */
  ghost predicate Keep(k: int, i: int, J: int) {
    k % WORD > i || (k % WORD == i && k / WORD < J)
  }

  ghost function Part(a: Words, b: Words, n: int, i: int, J: int, m: nat): bool {
    if m == 0 then false
    else Part(a, b, n, i, J, m - 1) != (Keep(m - 1, i, J) && At(a, m - 1) && At(b, n - (m - 1)))
  }

  lemma {:induction false} PartNone(a: Words, b: Words, n: int, m: nat)
    ensures !Part(a, b, n, WORD - 1, 0, m)
  {
    if m != 0 {
      PartNone(a, b, n, m - 1);
    }
  }

  lemma {:induction false} PartAll(a: Words, b: Words, n: int, J: nat, m: nat)
    requires m <= WORD * J
    ensures Part(a, b, n, 0, J, m) == Conv(a, b, n, m)
  {
    if m != 0 {
      PartAll(a, b, n, J, m - 1);
    }
  }

  /** A full pass over the words at bit i is the start of the pass at bit i - 1. */
  lemma {:induction false} PartNext(a: Words, b: Words, n: int, i: int, J: nat, m: nat)
    requires m <= WORD * J && i > 0
    ensures Part(a, b, n, i, J, m) == Part(a, b, n, i - 1, 0, m)
  {
    if m != 0 {
      PartNext(a, b, n, i, J, m - 1);
    }
  }

  /** One more word adds exactly one term. */
  lemma {:induction false} PartStep(a: Words, b: Words, n: int, i: nat, J: nat, m: nat)
    requires i < WORD
    ensures Part(a, b, n, i, J + 1, m) ==
            (Part(a, b, n, i, J, m) != (WORD * J + i < m && At(a, WORD * J + i) && At(b, n - (WORD * J + i))))
  {
    if m != 0 {
      PartStep(a, b, n, i, J, m - 1);
      var k := m - 1;
      assert Keep(k, i, J + 1) != Keep(k, i, J) <==> k == WORD * J + i;
    }
  }

  /** The bit shifted in is zero: all kept terms lie above. */
  lemma {:induction false} PartLow(a: Words, b: Words, n: int, i: nat, m: nat)
    requires n <= i
    ensures !Part(a, b, n, i, 0, m)
  {
    if m != 0 {
      PartLow(a, b, n, i, m - 1);
    }
  }

  lemma {:induction false} ConvHigh(a: Words, b: Words, n: int, m: nat)
    requires n >= m + WORD * |b| - 1
    ensures !Conv(a, b, n, m)
  {
    if m != 0 {
      ConvHigh(a, b, n, m - 1);
    }
  }

  /** The innermost loop: scratch += bit * b * X^(64 j). */
  method AddShifted(scratch: Words, bit: bool, b: Words, j: nat) returns (r: Words)
    requires j + |b| <= |scratch|
    ensures |r| == |scratch|
    ensures forall n :: At(r, n) == (At(scratch, n) != (bit && At(b, n - WORD * j)))
  {
    r := scratch;
    var mask := Mask(bit);
    for k := 0 to |b|
      invariant |r| == |scratch|
      invariant forall i :: 0 <= i < |r| ==>
          r[i] == if j <= i < j + k then Xor(scratch[i], And(mask, b[i - j])) else scratch[i]
    {
      r := r[j + k := Xor(r[j + k], And(mask, b[k]))];
    }
    forall n ensures At(r, n) == (At(scratch, n) != (bit && At(b, n - WORD * j))) {
      if 0 <= n < WORD * |r| {
        var i, c := n / WORD, n % WORD;
        assert (n - WORD * j) / WORD == i - j && (n - WORD * j) % WORD == c;
      }
    }
  }

  /** One pass of the middle loop: for every word j, add bit i of a[j]. */
  method AddColumn(scratch: Words, a: Words, b: Words, i: nat) returns (r: Words)
    requires |scratch| == |a| + |b| && |a| == |b| && i < WORD
    requires forall n :: 0 <= n < WORD * |scratch| ==> At(scratch, n) == Part(a, b, n + i, i, 0, WORD * |a|)
    ensures |r| == |scratch|
    ensures forall n :: 0 <= n < WORD * |r| ==> At(r, n) == Part(a, b, n + i, i, |a|, WORD * |a|)
  {
    r := scratch;
    for j := 0 to |b|
      invariant |r| == |scratch|
      invariant forall n :: 0 <= n < WORD * |r| ==> At(r, n) == Part(a, b, n + i, i, j, WORD * |a|)
    {
      ghost var before := r;
      r := AddShifted(r, a[j][i], b, j);
      AtWord(a, j, i);
      forall n | 0 <= n < WORD * |r| ensures At(r, n) == Part(a, b, n + i, i, j + 1, WORD * |a|) {
        PartStep(a, b, n + i, i, j, WORD * |a|);
        assert At(before, n) == Part(a, b, n + i, i, j, WORD * |a|);
        assert n - WORD * j == n + i - (WORD * j + i);
      }
    }
  }

  /** accumulate: f += a * b. The product is complete, no coefficient is lost by the shifts. */
  method Accumulate(f: Words, a: Words, b: Words) returns (r: Words)
    requires |a| == |b| > 0 && |f| == |a| + |b|
    ensures |r| == |f|
    ensures forall n :: At(r, n) == (At(f, n) != Product(a, b, n))
  {
    var scratch := Multiply(a, b);
    r := XorAll(f, scratch);
    forall n ensures At(r, n) == (At(f, n) != Product(a, b, n)) {
      if n < 0 {
        NegativeCoefficient(a, b, n, WORD * |a|);
      } else if n >= WORD * |f| {
        ConvHigh(a, b, n, WORD * |a|);
      }
    }
  }

  lemma {:induction false} NegativeCoefficient(a: Words, b: Words, n: int, m: nat)
    requires n < 0
    ensures !Conv(a, b, n, m)
  {
    if m != 0 {
      NegativeCoefficient(a, b, n, m - 1);
    }
  }

  method Multiply(a: Words, b: Words) returns (scratch: Words)
    requires |a| == |b| > 0
    ensures |scratch| == |a| + |b|
    ensures forall n :: 0 <= n < WORD * |scratch| ==> At(scratch, n) == Product(a, b, n)
  {
    ghost var m := WORD * |a|;
    scratch := ZeroWords(|a| + |b|);
    var i := WORD - 1;
    forall n | 0 <= n < WORD * |scratch| ensures At(scratch, n) == Part(a, b, n + i, i, 0, m) {
      PartNone(a, b, n + i, m);
    }
    while i > 0
      invariant 0 <= i < WORD && |scratch| == |a| + |b|
      invariant forall n :: 0 <= n < WORD * |scratch| ==> At(scratch, n) == Part(a, b, n + i, i, 0, m)
    {
      scratch := AddColumn(scratch, a, b, i);
      ghost var before := scratch;
      scratch := ShiftLeft(scratch);
      forall n | 0 <= n < WORD * |scratch| ensures At(scratch, n) == Part(a, b, n + i - 1, i - 1, 0, m) {
        PartNext(a, b, n + i - 1, i, |a|, m);
        if n == 0 {
          PartLow(a, b, i - 1, i - 1, m);
        } else {
          assert At(before, n - 1) == Part(a, b, n - 1 + i, i, |a|, m);
        }
      }
      i := i - 1;
    }
    scratch := AddColumn(scratch, a, b, 0);
    forall n | 0 <= n < WORD * |scratch| ensures At(scratch, n) == Product(a, b, n) {
      PartAll(a, b, n, |a|, m);
    }
  }

  method XorAll(f: Words, g: Words) returns (r: Words)
    requires |f| == |g|
    ensures |r| == |f| && forall n :: At(r, n) == (At(f, n) != At(g, n))
  {
    r := f;
    for i := 0 to |f|
      invariant |r| == |f|
      invariant forall k :: 0 <= k < |f| ==> r[k] == if k < i then Xor(f[k], g[k]) else f[k]
    {
      r := r[i := Xor(r[i], g[i])];
    }
  }

  /** conditionalAdd: adds x when the choice bit is set. */
  method ConditionalAdd(f: Words, choice: bool, x: Words) returns (r: Words)
    requires |f| == |x|
    ensures |r| == |f| && forall n :: At(r, n) == (At(f, n) != (choice && At(x, n)))
  {
    r := f;
    for i := 0 to |f|
      invariant |r| == |f|
      invariant forall k :: 0 <= k < |f| ==> r[k] == if k < i then Xor(f[k], And(Mask(choice), x[k])) else f[k]
    {
      r := r[i := Xor(r[i], And(Mask(choice), x[i]))];
    }
  }

  // ------------------------------------------------------------------- linearity

  /** The product is linear in its first factor. */
  lemma {:induction false} ConvLinear(a: Words, c: Words, d: Words, bit: bool, b: Words, n: int, m: nat)
    requires forall k :: At(a, k) == (At(c, k) != (bit && At(d, k)))
    ensures Conv(a, b, n, m) == (Conv(c, b, n, m) != (bit && Conv(d, b, n, m)))
  {
    if m != 0 {
      ConvLinear(a, c, d, bit, b, n, m - 1);
      assert At(a, m - 1) == (At(c, m - 1) != (bit && At(d, m - 1)));
    }
  }

  /** The weighted sum of products over i < len, at coefficient n. */
  ghost function Weighted(es: seq<Words>, chi: seq<Words>, n: int, len: nat): bool
    requires len <= |es| && len <= |chi|
  {
    if len == 0 then false else Weighted(es, chi, n, len - 1) != Product(es[len - 1], chi[len - 1], n)
  }

  lemma {:induction false} WeightedLinear(a: seq<Words>, c: seq<Words>, d: seq<Words>, bit: bool, chi: seq<Words>,
                                          n: int, len: nat)
    requires len <= |a| == |c| == |d| && len <= |chi|
    requires forall i :: 0 <= i < len ==> |a[i]| == |c[i]| == |d[i]|
    requires forall i, k :: 0 <= i < len ==> At(a[i], k) == (At(c[i], k) != (bit && At(d[i], k)))
    ensures Weighted(a, chi, n, len) == (Weighted(c, chi, n, len) != (bit && Weighted(d, chi, n, len)))
  {
    if len != 0 {
      WeightedLinear(a, c, d, bit, chi, n, len - 1);
      ConvLinear(a[len - 1], c[len - 1], d[len - 1], bit, chi[len - 1], n, WORD * |a[len - 1]|);
    }
  }

  // ------------------------------------------------------------ no zero divisors

  /** k is the degree of f. */
  ghost predicate Leads(f: Words, k: int) {
    At(f, k) && forall i :: i > k ==> !At(f, i)
  }

  lemma {:induction false} LeadingTerm(f: Words, n: nat) returns (k: int)
    requires (exists i :: 0 <= i < n && At(f, i)) && forall i :: i >= n ==> !At(f, i)
    ensures Leads(f, k)
  {
    if At(f, n - 1) {
      k := n - 1;
    } else {
      k := LeadingTerm(f, n - 1);
    }
  }

  lemma {:induction false} ConvLeads(a: Words, b: Words, i: int, j: int, m: nat)
    requires Leads(a, i) && Leads(b, j)
    ensures Conv(a, b, i + j, m) == (m > i)
  {
    if m != 0 {
      ConvLeads(a, b, i, j, m - 1);
    }
  }

  /** Degrees add: the unreduced product of two polynomials that are not zero is not zero. */
  lemma ProductNotZero(a: Words, b: Words)
    requires (exists n :: At(a, n)) && exists n :: At(b, n)
    ensures exists n :: Product(a, b, n)
  {
    var i := LeadingTerm(a, WORD * |a|);
    var j := LeadingTerm(b, WORD * |b|);
    ConvLeads(a, b, i, j, WORD * |a|);
    assert Product(a, b, i + j);
  }

  /** Sums that differ in one summand differ by its product. */
  lemma {:induction false} WeightedOne(a: seq<Words>, c: seq<Words>, chi: seq<Words>, i: nat, n: int, len: nat)
    requires i < |a| == |c| && len <= |a| && len <= |chi| && i < |chi|
    requires forall k :: 0 <= k < |a| && k != i ==> a[k] == c[k]
    ensures Weighted(a, chi, n, len) ==
            (Weighted(c, chi, n, len) != (i < len && Product(a[i], chi[i], n) != Product(c[i], chi[i], n)))
  {
    if len != 0 {
      WeightedOne(a, c, chi, i, n, len - 1);
    }
  }

  /** Sums that differ in exactly one summand are different, unless its weight is zero. */
  lemma WeightedSeparates(a: seq<Words>, c: seq<Words>, chi: seq<Words>, i: nat)
    requires i < |a| == |c| == |chi| && |a[i]| == |c[i]| && (exists n :: At(chi[i], n))
    requires (forall k :: 0 <= k < |a| && k != i ==> a[k] == c[k]) && exists n :: At(a[i], n) != At(c[i], n)
    ensures exists n :: Weighted(a, chi, n, |a|) != Weighted(c, chi, n, |a|)
  {
    var d := Difference(a[i], c[i]);
    var k :| At(a[i], k) != At(c[i], k);
    assert At(d, k);
    hide At;
    ProductNotZero(d, chi[i]);
    var n :| Product(d, chi[i], n);
    ConvLinear(a[i], c[i], d, true, chi[i], n, WORD * |a[i]|);
    WeightedOne(a, c, chi, i, n, |a|);
    assert Weighted(a, chi, n, |a|) != Weighted(c, chi, n, |a|);
  }

  ghost function Difference(f: Words, g: Words): (d: Words)
    requires |f| == |g|
    ensures |d| == |f| && forall n :: At(d, n) == (At(f, n) != At(g, n))
  {
    seq(|f|, k requires 0 <= k < |f| => Xor(f[k], g[k]))
  }
}
