/**
  The scalar field and the curve group. The group order Q is an arbitrary odd prime of at most
  256 bits. Every cyclic group of order Q is the additive group of Z_Q, so a Point is a residue,
  the identity is 0, and the base point G is an arbitrary non-identity element.
 */
module Zq {
  import opened Residues

  const TWO_256: int := 0x1_0000000000000000000000000000000000000000000000000000000000000000

  type Order = p: int | 2 < p < TWO_256 && IsPrime(p) witness 3
  const Q: Order

  type Scalar = x: int | 0 <= x < Q witness 0
  type Point = Scalar

  type BasePoint = x: int | 0 < x < Q witness 1
  const G: BasePoint

  /** SetNat: a number interpreted modulo the group order. */
  function Red(x: int): (r: Scalar) {
    Rem(x, Q)
  }

  function Add(a: Scalar, b: Scalar): (r: Scalar) {
    if a + b < Q then a + b else a + b - Q
  }

  function Neg(a: Scalar): (r: Scalar) {
    if a == 0 then 0 else Q - a
  }

  function Sub(a: Scalar, b: Scalar): (r: Scalar) {
    Add(a, Neg(b))
  }

  function Mul(a: Scalar, b: Scalar): (r: Scalar) {
    Red(a * b)
  }

  /** Invert maps zero to zero, as InverseNonConst does. */
  function Inv(a: Scalar): (r: Scalar) {
    if a == 0 then 0 else ModInverse(a, Q)
  }

  function Act(s: Scalar, p: Point): (r: Point) {
    Mul(s, p)
  }

  function ActOnBase(s: Scalar): (r: Point) {
    Mul(s, G)
  }

  // ---------------------------------------------------------------- field laws

  lemma RedSmall(a: Scalar)
    ensures Red(a) == a
  {
    RemSmall(a, Q);
  }

  lemma RedAdd(x: int, y: int)
    ensures Red(x + y) == Add(Red(x), Red(y))
  {
    RemAddCong(x, Red(x), y, Red(y), Q) by {
      RemIdem(x, Q);
      RemIdem(y, Q);
    }
    AddIsRed(Red(x), Red(y));
  }

  lemma AddIsRed(a: Scalar, b: Scalar)
    ensures Add(a, b) == Red(a + b)
  {
    hide Rem;
    var s := Add(a, b);
    RemSmall(s, Q);
    if a + b >= Q {
      assert s + 1 * Q == a + b;
      RemShift(s, Q, 1);
    }
  }

  lemma RedMul(x: int, y: int)
    ensures Red(x * y) == Mul(Red(x), Red(y))
  {
    RemMulCong(x, Red(x), y, Red(y), Q) by {
      RemIdem(x, Q);
      RemIdem(y, Q);
    }
  }

  lemma MulComm(a: Scalar, b: Scalar)
    ensures Mul(a, b) == Mul(b, a)
  {
    assert a * b == b * a;
  }

  lemma MulAssoc(a: Scalar, b: Scalar, c: Scalar)
    ensures Mul(a, Mul(b, c)) == Mul(Mul(a, b), c)
  {
    hide Red;
    RedMul(a, b * c);
    RedMul(a * b, c);
    RedSmall(a);
    RedSmall(c);
    Associate(a, b, c);
  }

  lemma Associate(a: int, b: int, c: int)
    ensures a * (b * c) == (a * b) * c
  {
  }

  /** The middle two of four factors trade places. */
  lemma MulSwap(a: Scalar, b: Scalar, c: Scalar)
    ensures Mul(a, Mul(b, c)) == Mul(b, Mul(a, c))
  {
    MulAssoc(a, b, c);
    MulAssoc(b, a, c);
    MulComm(a, b);
  }

  lemma MulOne(a: Scalar)
    ensures Mul(a, 1) == a && Mul(1, a) == a
  {
    RedSmall(a);
    assert a * 1 == a && 1 * a == a;
  }

  lemma MulZero(a: Scalar)
    ensures Mul(a, 0) == 0 && Mul(0, a) == 0
  {
    RedSmall(0);
    assert a * 0 == 0 && 0 * a == 0;
  }

  lemma MulAdd(a: Scalar, b: Scalar, c: Scalar)
    ensures Mul(a, Add(b, c)) == Add(Mul(a, b), Mul(a, c))
    ensures Mul(Add(b, c), a) == Add(Mul(b, a), Mul(c, a))
  {
    hide Rem;
    AddIsRed(b, c);
    RedMul(a, b + c);
    RedSmall(a);
    MulSum(a, b, c);
    RedAdd(a * b, a * c);
    hide Add;
    MulComm(a, Add(b, c));
    MulComm(a, b);
    MulComm(a, c);
  }

  lemma MulSum(a: int, b: int, c: int)
    ensures a * (b + c) == a * b + a * c
  {
  }

  lemma MulNeg(a: Scalar, b: Scalar)
    ensures Mul(a, Neg(b)) == Neg(Mul(a, b)) && Mul(Neg(b), a) == Neg(Mul(b, a))
  {
    hide Red;
    MulAdd(a, b, Neg(b));
    MulZero(a);
    MulComm(a, b);
    MulComm(a, Neg(b));
  }

  lemma MulSub(a: Scalar, b: Scalar, c: Scalar)
    ensures Mul(a, Sub(b, c)) == Sub(Mul(a, b), Mul(a, c))
    ensures Mul(Sub(b, c), a) == Sub(Mul(b, a), Mul(c, a))
  {
    hide Red;
    MulAdd(a, b, Neg(c));
    MulNeg(a, c);
  }

  lemma InvWorks(a: Scalar)
    requires a != 0
    ensures Mul(a, Inv(a)) == 1 && Mul(Inv(a), a) == 1
  {
    if Divides(Q, a) {
      DivisorBound(Q, a);
    }
    PrimeUnit(a, Q);
    InverseWorks(a, Q);
    assert a * Inv(a) == Inv(a) * a;
  }

  lemma NoZeroDivisors(a: Scalar, b: Scalar)
    requires Mul(a, b) == 0
    ensures a == 0 || b == 0
  {
    if a != 0 {
      MulZero(a);
      Cancel(a, b, 0);
    }
  }

  lemma Cancel(a: Scalar, b: Scalar, c: Scalar)
    requires a != 0 && Mul(a, b) == Mul(a, c)
    ensures b == c
  {
    DivMul(a, b);
    DivMul(a, c);
  }

  /** Dividing undoes multiplying. */
  lemma DivMul(a: Scalar, b: Scalar)
    requires a != 0
    ensures Mul(Inv(a), Mul(a, b)) == b && Mul(a, Mul(Inv(a), b)) == b
  {
    hide Red, Inv;
    InvWorks(a);
    MulAssoc(Inv(a), a, b);
    MulAssoc(a, Inv(a), b);
    MulOne(b);
  }

  /** A scalar is determined by its multiple of the base point. */
  lemma BaseInjective(a: Scalar, b: Scalar)
    ensures ActOnBase(a) == ActOnBase(b) <==> a == b
  {
    if ActOnBase(a) == ActOnBase(b) {
      MulComm(a, G);
      MulComm(b, G);
      Cancel(G, a, b);
    }
  }

  // ---------------------------------------------------------------------- sums

  function Sum(s: seq<Scalar>): (r: Scalar) {
    if |s| == 0 then 0 else Add(Sum(s[..|s| - 1]), s[|s| - 1])
  }

  lemma SumStep(s: seq<Scalar>, i: nat)
    requires i < |s|
    ensures Sum(s[..i + 1]) == Add(Sum(s[..i]), s[i])
  {
    assert s[..i + 1][..i] == s[..i];
  }

  lemma SumAll(s: seq<Scalar>)
    ensures Sum(s[..|s|]) == Sum(s)
  {
    assert s[..|s|] == s;
  }

  lemma AddSwap(a: Scalar, b: Scalar, c: Scalar, d: Scalar)
    ensures Add(Add(a, b), Add(c, d)) == Add(Add(a, c), Add(b, d))
  {
  }

  lemma AddAssoc(a: Scalar, b: Scalar, c: Scalar)
    ensures Add(Add(a, b), c) == Add(a, Add(b, c))
  {
  }

  lemma {:induction false} SumAdd(a: seq<Scalar>, b: seq<Scalar>, c: seq<Scalar>)
    requires |a| == |b| == |c| && forall i :: 0 <= i < |a| ==> c[i] == Add(a[i], b[i])
    ensures Sum(c) == Add(Sum(a), Sum(b))
  {
    if |a| != 0 {
      var n := |a| - 1;
      SumAdd(a[..n], b[..n], c[..n]);
      AddSwap(Sum(a[..n]), Sum(b[..n]), a[n], b[n]);
    }
  }

  lemma {:induction false} SumScale(k: Scalar, a: seq<Scalar>, c: seq<Scalar>)
    requires |a| == |c| && forall i :: 0 <= i < |a| ==> c[i] == Mul(k, a[i])
    ensures Sum(c) == Mul(k, Sum(a))
  {
    hide Red;
    if |a| == 0 {
      MulZero(k);
    } else {
      var n := |a| - 1;
      SumScale(k, a[..n], c[..n]);
      MulAdd(k, Sum(a[..n]), a[n]);
    }
  }

  lemma {:induction false} SumNeg(a: seq<Scalar>, c: seq<Scalar>)
    requires |a| == |c| && forall i :: 0 <= i < |a| ==> c[i] == Neg(a[i])
    ensures Sum(c) == Neg(Sum(a))
  {
    if |a| != 0 {
      SumNeg(a[..|a| - 1], c[..|a| - 1]);
    }
  }

  lemma {:induction false} SumZero(a: seq<Scalar>)
    requires forall i :: 0 <= i < |a| ==> a[i] == 0
    ensures Sum(a) == 0
  {
    if |a| != 0 {
      SumZero(a[..|a| - 1]);
    }
  }

  lemma {:induction false} SumConcat(a: seq<Scalar>, b: seq<Scalar>)
    ensures Sum(a + b) == Add(Sum(a), Sum(b))
  {
    if |b| == 0 {
      assert a + b == a;
    } else {
      var n := |b| - 1;
      assert (a + b)[..|a + b| - 1] == a + b[..n];
      SumConcat(a, b[..n]);
      AddAssoc(Sum(a), Sum(b[..n]), b[n]);
    }
  }

  /** Only one entry is not zero. */
  lemma {:induction false} SumSingle(a: seq<Scalar>, k: nat)
    requires k < |a| && forall i :: 0 <= i < |a| && i != k ==> a[i] == 0
    ensures Sum(a) == a[k]
  {
    var n := |a| - 1;
    if k == n {
      SumZero(a[..n]);
    } else {
      SumSingle(a[..n], k);
    }
  }
}
