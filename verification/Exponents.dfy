/** Polynomial.Evaluate, polynomials in the exponent and their sums. */
module Exponents {
  import opened Zq
  import opened Polynomials
  import opened Party

  /** When isConstant is set, the constant coefficient is the identity and is left out. */
  datatype Exponent = Exponent(isConstant: bool, coefficients: seq<Point>)

  function Full(e: Exponent): (r: seq<Point>) {
    if e.isConstant then [0] + e.coefficients else e.coefficients
  }

  function Degree(e: Exponent): (d: int) {
    if e.isConstant then |e.coefficients| else |e.coefficients| - 1
  }

  function Constant(e: Exponent): (p: Point)
    requires e.isConstant || |e.coefficients| > 0
  {
    if e.isConstant then 0 else e.coefficients[0]
  }

  lemma ConstantIsValueAtZero(e: Exponent)
    requires e.isConstant || |e.coefficients| > 0
    ensures Constant(e) == Eval(Full(e), 0)
  {
    EvalZero(Full(e));
  }

  /** Horner's scheme in the field. The source panics on index zero. */
  method EvaluatePolynomial(f: seq<Scalar>, index: Scalar) returns (r: Scalar)
    requires index != 0
    ensures r == Eval(f, index)
  {
    hide Mul;
    r := 0;
    var i := |f|;
    while i > 0
      invariant 0 <= i <= |f|
      invariant r == Eval(f[i..], index)
    {
      i := i - 1;
      assert f[i..][1..] == f[i + 1..];
      MulComm(r, index);
      r := Add(Mul(r, index), f[i]);
    }
    assert f[0..] == f;
  }

  /** The commitment to a polynomial, without its constant when that is zero. */
  ghost function CommitmentTo(f: seq<Scalar>): (e: Exponent)
    requires |f| > 0
    ensures e.isConstant <==> f[0] == 0
  {
    var from := if f[0] == 0 then 1 else 0;
    Exponent(f[0] == 0, seq<Point>(|f| - from, j requires 0 <= j < |f| - from => ActOnBase(f[j + from])))
  }

  /** The commitment to f opens to f(x)*G at every x and has the same degree. */
  method NewPolynomialExponent(f: seq<Scalar>) returns (e: Exponent)
    requires |f| > 0
    ensures e == CommitmentTo(f)
    ensures Degree(e) == |f| - 1 && |Full(e)| == |f|
    ensures forall x :: Eval(Full(e), x) == ActOnBase(Eval(f, x))
  {
    hide Mul;
    e := Exponent(f[0] == 0, []);
    for i := 0 to |f|
      invariant e.isConstant <==> f[0] == 0
      invariant |e.coefficients| == if e.isConstant && i > 0 then i - 1 else i
      invariant forall j :: 0 <= j < |e.coefficients| ==>
          e.coefficients[j] == ActOnBase(f[if e.isConstant then j + 1 else j])
    {
      if !(e.isConstant && i == 0) {
        e := e.(coefficients := e.coefficients + [ActOnBase(f[i])]);
      }
    }
    assert e.coefficients == CommitmentTo(f).coefficients;
    CommitmentOpens(f);
  }

  lemma CommitmentOpens(f: seq<Scalar>)
    requires |f| > 0
    ensures var e := CommitmentTo(f);
            Degree(e) == |f| - 1 && |Full(e)| == |f| && forall x :: Eval(Full(e), x) == ActOnBase(Eval(f, x))
  {
    var e := CommitmentTo(f);
    assert |Full(e)| == |f| && Degree(e) == |f| - 1;
    hide Mul, Full, CommitmentTo;
    forall i | 0 <= i < |f| ensures Full(e)[i] == Mul(G, f[i]) {
      CommitmentAt(f, i);
    }
    forall x ensures Eval(Full(e), x) == ActOnBase(Eval(f, x)) {
      EvalScale(G, f, Full(e), x);
      MulComm(G, Eval(f, x));
    }
  }

  lemma CommitmentAt(f: seq<Scalar>, i: nat)
    requires i < |f|
    ensures |Full(CommitmentTo(f))| == |f| && Full(CommitmentTo(f))[i] == Mul(G, f[i])
  {
    hide Mul;
    CommitmentFull(f, i);
    hide Full, CommitmentTo;
    MulComm(G, f[i]);
    MulZero(G);
  }

  lemma CommitmentFull(f: seq<Scalar>, i: nat)
    requires i < |f|
    ensures |Full(CommitmentTo(f))| == |f|
    ensures Full(CommitmentTo(f))[i] == if i == 0 && f[0] == 0 then 0 else ActOnBase(f[i])
  {
    hide ActOnBase;
  }

  /** Horner's scheme in the exponent, with one more step when the constant is left out. */
  method Evaluate(e: Exponent, x: Scalar) returns (r: Point)
    ensures r == Eval(Full(e), x)
  {
    hide Mul;
    var c := e.coefficients;
    r := 0;
    var i := |c|;
    while i > 0
      invariant 0 <= i <= |c|
      invariant r == Eval(c[i..], x)
    {
      i := i - 1;
      assert c[i..][1..] == c[i + 1..];
      r := Add(Act(x, r), c[i]);
    }
    assert c[0..] == c;
    if e.isConstant {
      assert Full(e)[1..] == c;
      r := Act(x, r);
    }
  }

  /** The sum of the powers of x times the coefficients is the same value. */
  method EvaluateClassic(e: Exponent, x: Scalar) returns (r: Point)
    ensures r == Eval(Full(e), x)
  {
    hide Mul;
    var c := e.coefficients;
    var xPower := 1;
    ghost var target := Eval(Full(e), x);
    r := 0;
    MulOne(Eval(c, x));
    if e.isConstant {
      xPower := Mul(xPower, x);
      MulOne(x);
      assert Full(e)[1..] == c;
    }
    assert c[0..] == c;
    for i := 0 to |c|
      invariant target == Add(r, Mul(xPower, Eval(c[i..], x)))
    {
      ghost var rest := Eval(c[i + 1..], x);
      assert c[i..][1..] == c[i + 1..];
      MulAdd(xPower, c[i], Mul(x, rest));
      MulAssoc(xPower, x, rest);
      AddAssoc(r, Mul(xPower, c[i]), Mul(Mul(xPower, x), rest));
      var tmp := Act(xPower, c[i]);
      r := Add(r, tmp);
      xPower := Mul(xPower, x);
    }
    MulZero(xPower);
  }

  // ----------------------------------------------------------------------- sums

  predicate SameShape(p: Exponent, q: Exponent) {
    |p.coefficients| == |q.coefficients| && p.isConstant == q.isConstant
  }

  ghost function Values(ps: seq<Exponent>, x: Scalar): (r: seq<Point>)
    ensures |r| == |ps| && forall j :: 0 <= j < |ps| ==> r[j] == Eval(Full(ps[j]), x)
  {
    seq(|ps|, j requires 0 <= j < |ps| => Eval(Full(ps[j]), x))
  }

  lemma ValuesStep(ps: seq<Exponent>, j: nat, x: Scalar)
    requires j < |ps|
    ensures Sum(Values(ps[..j + 1], x)) == Add(Sum(Values(ps[..j], x)), Eval(Full(ps[j]), x))
  {
    hide Eval, Full, Add;
    var vs := Values(ps[..j + 1], x);
    assert vs[..j] == Values(ps[..j], x);
  }

  /** add: fails exactly when the two polynomials differ in shape. */
  method AddExponent(p: Exponent, q: Exponent) returns (r: Result<Exponent>)
    ensures r.Ok? <==> SameShape(p, q)
    ensures r.Ok? ==> SameShape(p, r.value)
    ensures r.Ok? ==> forall x :: Eval(Full(r.value), x) == Add(Eval(Full(p), x), Eval(Full(q), x))
  {
    if |p.coefficients| != |q.coefficients| {
      return Err("q is not the same length as p");
    }
    if p.isConstant != q.isConstant {
      return Err("p and q differ in 'IsConstant'");
    }
    var c := p.coefficients;
    for i := 0 to |c|
      invariant |c| == |p.coefficients|
      invariant forall j :: 0 <= j < |c| ==>
          c[j] == if j < i then Add(p.coefficients[j], q.coefficients[j]) else p.coefficients[j]
    {
      c := c[i := Add(c[i], q.coefficients[i])];
    }
    r := Ok(p.(coefficients := c));
    forall x ensures Eval(Full(r.value), x) == Add(Eval(Full(p), x), Eval(Full(q), x)) {
      EvalAdd(Full(p), Full(q), Full(r.value), x);
    }
  }

  /** Sum: succeeds exactly when all shapes agree, and then evaluates to the sum of the values. */
  method SumExponents(ps: seq<Exponent>) returns (r: Result<Exponent>)
    requires |ps| > 0
    ensures r.Ok? <==> forall j :: 0 <= j < |ps| ==> SameShape(ps[0], ps[j])
    ensures r.Ok? ==> SameShape(ps[0], r.value)
    ensures r.Ok? ==> forall x :: Eval(Full(r.value), x) == Sum(Values(ps, x))
  {
    hide Eval, Full, Add, Sum;
    var summed := ps[0];
    forall x ensures Eval(Full(summed), x) == Sum(Values(ps[..1], x)) {
      SumSingle(Values(ps[..1], x), 0);
    }
    for j := 1 to |ps|
      invariant SameShape(ps[0], summed)
      invariant forall k :: 0 <= k < j ==> SameShape(ps[0], ps[k])
      invariant forall x :: Eval(Full(summed), x) == Sum(Values(ps[..j], x))
    {
      var added := AddExponent(summed, ps[j]);
      if added.Err? {
        return added;
      }
      ghost var before := summed;
      summed := added.value;
      forall x ensures Eval(Full(summed), x) == Sum(Values(ps[..j + 1], x)) {
        assert Eval(Full(before), x) == Sum(Values(ps[..j], x));
        ValuesStep(ps, j, x);
      }
    }
    assert ps[..|ps|] == ps;
    r := Ok(summed);
  }
}
