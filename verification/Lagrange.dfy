/** Lagrange coefficients at zero and threshold reconstruction. */
module Lagrange {
  import opened Zq
  import opened Polynomials
  import opened Party

  /** The factors of the denominator: x_j, and x_i - x_j for every other i. */
  function Factors(xs: seq<Scalar>, j: nat): (r: seq<Scalar>)
    requires j < |xs|
  {
    seq(|xs|, i requires 0 <= i < |xs| => if i == j then xs[j] else Sub(xs[i], xs[j]))
  }

  function Lambda(xs: seq<Scalar>, j: nat): (r: Scalar)
    requires j < |xs|
  {
    Mul(Inv(Prod(Factors(xs, j))), Prod(xs))
  }

  /** The points of the parties are usable for interpolation. */
  ghost predicate GoodPoints(xs: seq<Scalar>) {
    Distinct(xs) && NonZero(xs)
  }

  /** Lagrange: the coefficients at zero for every party of the domain. */
  method LagrangeCoefficients(ids: seq<ID>) returns (coefficients: map<ID, Scalar>)
    requires forall i, j :: 0 <= i < j < |ids| ==> ids[i] != ids[j]
    ensures coefficients.Keys == IdSet(ids)
    ensures forall j :: 0 <= j < |ids| ==> coefficients[ids[j]] == Lambda(Points(ids), j)
  {
    var scalars, numerator := ScalarsAndNumerator(ids);
    coefficients := map[];
    for j := 0 to |ids|
      invariant coefficients.Keys == IdSet(ids[..j])
      invariant forall k :: 0 <= k < j ==> coefficients[ids[k]] == Lambda(Points(ids), k)
    {
      var l := Single(ids, scalars, numerator, j);
      assert ids[j] !in ids[..j];
      coefficients := coefficients[ids[j] := l];
      assert ids[..j + 1] == ids[..j] + [ids[j]];
    }
    assert ids[..|ids|] == ids;
  }

  method ScalarsAndNumerator(ids: seq<ID>) returns (scalars: map<ID, Scalar>, numerator: Scalar)
    requires forall i, j :: 0 <= i < j < |ids| ==> ids[i] != ids[j]
    ensures forall i :: 0 <= i < |ids| ==> ids[i] in scalars && scalars[ids[i]] == ScalarOf(ids[i])
    ensures numerator == Prod(Points(ids))
  {
    hide Mul;
    var xs := Points(ids);
    numerator, scalars := 1, map[];
    for i := 0 to |ids|
      invariant forall k :: 0 <= k < i ==> ids[k] in scalars && scalars[ids[k]] == xs[k]
      invariant numerator == Prod(xs[..i])
    {
      var xi := ScalarOf(ids[i]);
      scalars := scalars[ids[i] := xi];
      assert xs[..i + 1][..i] == xs[..i];
      numerator := Mul(numerator, xi);
    }
    assert xs[..|ids|] == xs;
  }

  /** lagrange: one coefficient, by multiplying up its denominator. */
  method Single(ids: seq<ID>, scalars: map<ID, Scalar>, numerator: Scalar, j: nat) returns (l: Scalar)
    requires j < |ids| && forall i, k :: 0 <= i < k < |ids| ==> ids[i] != ids[k]
    requires forall i :: 0 <= i < |ids| ==> ids[i] in scalars && scalars[ids[i]] == ScalarOf(ids[i])
    requires numerator == Prod(Points(ids))
    ensures l == Lambda(Points(ids), j)
  {
    hide Mul, Inv, Add, Neg;
    var xs := Points(ids);
    ghost var fs := Factors(xs, j);
    var xJ := scalars[ids[j]];
    var denominator := 1;
    for i := 0 to |ids|
      invariant denominator == Prod(fs[..i])
    {
      assert fs[..i + 1][..i] == fs[..i];
      if ids[i] == ids[j] {
        denominator := Mul(denominator, xJ);
      } else {
        var tmp := Add(Neg(xJ), scalars[ids[i]]);
        NegAddComm(xJ, scalars[ids[i]]);
        denominator := Mul(denominator, tmp);
      }
    }
    assert fs[..|ids|] == fs;
    l := Mul(Inv(denominator), numerator);
  }

  lemma NegAddComm(a: Scalar, b: Scalar)
    ensures Add(Neg(a), b) == Sub(b, a)
  {
  }

  // ------------------------------------------------------------- reconstruction

  /** Lambda is the value at zero of the j-th basis polynomial, scaled to one at x_j. */
  lemma LambdaIsBasis(xs: seq<Scalar>, j: nat)
    requires j < |xs| && GoodPoints(xs)
    ensures var b := Annihilator(Without(xs, j));
            Lambda(xs, j) == Mul(Inv(Eval(b, xs[j])), Eval(b, 0))
  {
    var ys, fs := Without(xs, j), Factors(xs, j);
    var b := Annihilator(ys);
    AnnihilatorSpec(ys, xs[j]);
    AnnihilatorSpec(ys, 0);
    assert Differences(ys, 0) == ys;
    assert Without(fs, j) == Differences(ys, xs[j]);
    ProdWithout(xs, j);
    ProdWithout(fs, j);
    BasisAtPoint(xs, j, j);
    CancelCommon(xs[j], Eval(b, xs[j]), Eval(b, 0));
  }

  lemma CancelCommon(k: Scalar, d: Scalar, n: Scalar)
    requires k != 0 && d != 0
    ensures Mul(Inv(Mul(k, d)), Mul(k, n)) == Mul(Inv(d), n)
  {
    hide Mul, Inv;
    var kd := Mul(k, d);
    if kd == 0 {
      NoZeroDivisors(k, d);
    }
    DivMul(kd, Mul(k, n));
    MulAssoc(k, d, Mul(Inv(d), n));
    DivMul(d, n);
    Cancel(kd, Mul(Inv(kd), Mul(k, n)), Mul(Inv(d), n));
  }

  /**
    Threshold reconstruction: the Lagrange coefficients of |f| or more distinct non-zero points
    combine the values of f, in the field or in the exponent, to f(0).
   */
  lemma Reconstruct(xs: seq<Scalar>, f: seq<Scalar>, terms: seq<Scalar>)
    requires |f| <= |xs| == |terms| && GoodPoints(xs)
    requires forall j :: 0 <= j < |xs| ==> terms[j] == Mul(Lambda(xs, j), Eval(f, xs[j]))
    ensures Sum(terms) == Eval(f, 0)
  {
    var ws, ps, n := Weights(xs, f), Bases(xs), |xs|;
    forall j | 0 <= j < n ensures terms[j] == Mul(ws[j], Eval(ps[j], 0)) {
      LambdaIsBasis(xs, j);
      hide Mul, Inv, Lambda;
      var y, i, z := Eval(f, xs[j]), Inv(Eval(ps[j], xs[j])), Eval(ps[j], 0);
      MulComm(Mul(i, z), y);
      MulAssoc(y, i, z);
    }
    CombineSpec(ws, ps, n, 0, terms);
    Interpolation(xs, f, 0);
  }
}
