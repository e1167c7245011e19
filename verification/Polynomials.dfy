/**
  Polynomials over the scalar field as coefficient sequences, lowest degree first. Because points
  are residues, a coefficient sequence is also a polynomial "in the exponent".
 */
module Polynomials {
  import opened Zq

  /** The value c[0] + c[1] x + c[2] x^2 + ... */
  function Eval(c: seq<Scalar>, x: Scalar): (r: Scalar) {
    if |c| == 0 then 0 else Add(c[0], Mul(x, Eval(c[1..], x)))
  }

  function Power(x: Scalar, e: nat): (r: Scalar) {
    if e == 0 then 1 else Mul(Power(x, e - 1), x)
  }

  function Prod(s: seq<Scalar>): (r: Scalar) {
    if |s| == 0 then 1 else Mul(Prod(s[..|s| - 1]), s[|s| - 1])
  }

  ghost predicate Distinct(xs: seq<Scalar>) {
    forall i, j :: 0 <= i < j < |xs| ==> xs[i] != xs[j]
  }

  ghost predicate NonZero(xs: seq<Scalar>) {
    forall i :: 0 <= i < |xs| ==> xs[i] != 0
  }

  // ---------------------------------------------------------------- evaluation

  lemma EvalZero(c: seq<Scalar>)
    requires |c| > 0
    ensures Eval(c, 0) == c[0]
  {
    hide Mul;
    MulZero(Eval(c[1..], 0));
  }

  /** One more coefficient at the top adds one more power. */
  lemma {:induction false} EvalSnoc(c: seq<Scalar>, x: Scalar)
    requires |c| > 0
    ensures Eval(c, x) == Add(Eval(c[..|c| - 1], x), Mul(Power(x, |c| - 1), c[|c| - 1]))
  {
    hide Mul;
    var n := |c| - 1;
    if n == 0 {
      MulZero(x);
      MulOne(c[0]);
      assert c[1..] == [] == c[..n];
    } else {
      EvalSnoc(c[1..], x);
      assert c[1..][..n - 1] == c[..n][1..];
      var low := Eval(c[..n][1..], x);
      MulAdd(x, low, Mul(Power(x, n - 1), c[n]));
      MulAssoc(x, Power(x, n - 1), c[n]);
      MulComm(x, Power(x, n - 1));
    }
  }

  /** Horner's scheme computes the sum of the terms c[i] x^i. */
  lemma {:induction false} EvalIsPowerSum(c: seq<Scalar>, x: Scalar, terms: seq<Scalar>)
    requires |terms| == |c| && forall i :: 0 <= i < |c| ==> terms[i] == Mul(Power(x, i), c[i])
    ensures Eval(c, x) == Sum(terms)
  {
    if |c| != 0 {
      var n := |c| - 1;
      EvalSnoc(c, x);
      EvalIsPowerSum(c[..n], x, terms[..n]);
    }
  }

  lemma {:induction false} EvalAdd(a: seq<Scalar>, b: seq<Scalar>, c: seq<Scalar>, x: Scalar)
    requires |a| == |b| == |c| && forall i :: 0 <= i < |c| ==> c[i] == Add(a[i], b[i])
    ensures Eval(c, x) == Add(Eval(a, x), Eval(b, x))
  {
    hide Mul;
    if |c| != 0 {
      EvalAdd(a[1..], b[1..], c[1..], x);
      MulAdd(x, Eval(a[1..], x), Eval(b[1..], x));
      AddSwap(a[0], b[0], Mul(x, Eval(a[1..], x)), Mul(x, Eval(b[1..], x)));
    }
  }

  lemma {:induction false} EvalScale(k: Scalar, a: seq<Scalar>, c: seq<Scalar>, x: Scalar)
    requires |a| == |c| && forall i :: 0 <= i < |c| ==> c[i] == Mul(k, a[i])
    ensures Eval(c, x) == Mul(k, Eval(a, x))
  {
    hide Mul;
    if |c| == 0 {
      MulZero(k);
    } else {
      EvalScale(k, a[1..], c[1..], x);
      MulSwap(x, k, Eval(a[1..], x));
      MulAdd(k, a[0], Mul(x, Eval(a[1..], x)));
    }
  }

  function Negated(c: seq<Scalar>): (r: seq<Scalar>) {
    seq(|c|, i requires 0 <= i < |c| => Neg(c[i]))
  }

  lemma {:induction false} EvalNeg(c: seq<Scalar>, x: Scalar)
    ensures Eval(Negated(c), x) == Neg(Eval(c, x))
  {
    hide Mul;
    if |c| == 0 {
    } else {
      assert Negated(c)[1..] == Negated(c[1..]);
      EvalNeg(c[1..], x);
      MulNeg(x, Eval(c[1..], x));
      NegAdd(c[0], Mul(x, Eval(c[1..], x)));
    }
  }

  lemma NegAdd(a: Scalar, b: Scalar)
    ensures Neg(Add(a, b)) == Add(Neg(a), Neg(b))
  {
  }

  function Padded(c: seq<Scalar>, n: nat): (r: seq<Scalar>)
    requires |c| <= n
  {
    c + seq(n - |c|, i => 0)
  }

  lemma {:induction false} EvalPadded(c: seq<Scalar>, n: nat, x: Scalar)
    requires |c| <= n
    ensures Eval(Padded(c, n), x) == Eval(c, x)
    decreases n
  {
    hide Mul;
    if n == 0 {
    } else if |c| == 0 {
      assert Padded(c, n)[1..] == Padded(c, n - 1);
      EvalPadded(c, n - 1, x);
      MulZero(x);
    } else {
      assert Padded(c, n)[1..] == Padded(c[1..], n - 1);
      EvalPadded(c[1..], n - 1, x);
    }
  }

  // --------------------------------------------------------------------- roots

  /** Synthetic division by (X - a), without its remainder. */
  ghost function Divide(c: seq<Scalar>, a: Scalar): (g: seq<Scalar>)
    requires |c| > 0
    ensures |g| == |c| - 1
  {
    if |c| == 1 then [] else [Eval(c[1..], a)] + Divide(c[1..], a)
  }

  lemma {:induction false} DivideSpec(c: seq<Scalar>, a: Scalar, x: Scalar)
    requires |c| > 0
    ensures Eval(c, x) == Add(Eval(c, a), Mul(Sub(x, a), Eval(Divide(c, a), x)))
  {
    hide Mul;
    var d := Sub(x, a);
    if |c| == 1 {
      MulZero(d);
      MulZero(x);
      MulZero(a);
    } else {
      var t, g := c[1..], Divide(c[1..], a);
      DivideSpec(t, a, x);
      assert Divide(c, a)[1..] == g;
      var ta, gx := Eval(t, a), Eval(g, x);
      MulAdd(d, ta, Mul(x, gx));
      MulAdd(x, ta, Mul(d, gx));
      MulSwap(d, x, gx);
      MulSub(ta, x, a);
      Regroup(c[0], Mul(x, ta), Mul(a, ta), Mul(x, Mul(d, gx)));
    }
  }

  lemma Regroup(c: Scalar, u: Scalar, v: Scalar, w: Scalar)
    ensures Add(c, Add(u, w)) == Add(Add(c, v), Add(Sub(u, v), w))
  {
  }

  /** A polynomial with as many distinct roots as coefficients is zero everywhere. */
  lemma {:induction false} TooManyRoots(c: seq<Scalar>, xs: seq<Scalar>, x: Scalar)
    requires |c| <= |xs| && Distinct(xs)
    requires forall i :: 0 <= i < |xs| ==> Eval(c, xs[i]) == 0
    ensures Eval(c, x) == 0
    decreases |xs|
  {
    hide Mul;
    if |c| != 0 {
      var n := |xs| - 1;
      var a := xs[n];
      var g := Divide(c, a);
      forall i | 0 <= i < n ensures Eval(g, xs[i]) == 0 {
        DivideSpec(c, a, xs[i]);
        NoZeroDivisors(Sub(xs[i], a), Eval(g, xs[i]));
      }
      TooManyRoots(g, xs[..n], x);
      DivideSpec(c, a, x);
      MulZero(Sub(x, a));
    }
  }

  // ------------------------------------------------------------------ products

  function Without<T>(s: seq<T>, j: nat): (r: seq<T>)
    requires j < |s|
    ensures |r| == |s| - 1
  {
    s[..j] + s[j + 1..]
  }

  lemma {:induction false} ProdWithout(s: seq<Scalar>, j: nat)
    requires j < |s|
    ensures Prod(s) == Mul(s[j], Prod(Without(s, j)))
    decreases |s|
  {
    hide Mul;
    var n := |s| - 1;
    if j == n {
      assert Without(s, j) == s[..n];
      MulComm(s[j], Prod(s[..n]));
    } else {
      ProdWithout(s[..n], j);
      assert Without(s, j)[..n - 1] == Without(s[..n], j);
      MulAssoc(s[j], Prod(Without(s[..n], j)), s[n]);
    }
  }

  lemma {:induction false} ProdNonZero(s: seq<Scalar>)
    ensures Prod(s) != 0 <==> NonZero(s)
  {
    hide Mul;
    if |s| != 0 {
      var n := |s| - 1;
      ProdNonZero(s[..n]);
      MulZero(Prod(s[..n]));
      MulZero(s[n]);
      if Prod(s) == 0 {
        NoZeroDivisors(Prod(s[..n]), s[n]);
      }
    }
  }

  /** Coefficients of (a - X) * c. */
  ghost function TimesLinear(c: seq<Scalar>, a: Scalar): (r: seq<Scalar>)
    ensures |r| == |c| + 1
  {
    if |c| == 0 then [0]
    else
      var t := TimesLinear(c[1..], a);
      [Mul(a, c[0])] + [Sub(t[0], c[0])] + t[1..]
  }

  lemma {:induction false} TimesLinearSpec(c: seq<Scalar>, a: Scalar, x: Scalar)
    ensures Eval(TimesLinear(c, a), x) == Mul(Sub(a, x), Eval(c, x))
  {
    if |c| == 0 {
      MulZero(x);
      MulZero(Sub(a, x));
    } else {
      TimesLinearSpec(c[1..], a, x);
      TimesLinearUnfold(c, a, x);
      LinearAlgebra(c[0], a, x, Eval(c[1..], x));
    }
  }

  lemma TimesLinearUnfold(c: seq<Scalar>, a: Scalar, x: Scalar)
    requires |c| > 0
    ensures Eval(TimesLinear(c, a), x) == Add(Mul(a, c[0]), Mul(x, Sub(Eval(TimesLinear(c[1..], a), x), c[0])))
  {
    hide Mul, Add, Sub;
    var t := TimesLinear(c[1..], a);
    var u := [Sub(t[0], c[0])] + t[1..];
    assert TimesLinear(c, a)[1..] == u && u[1..] == t[1..];
    ShiftHead(t, c[0], u, x);
  }

  lemma LinearAlgebra(k: Scalar, a: Scalar, x: Scalar, e: Scalar)
    ensures Add(Mul(a, k), Mul(x, Sub(Mul(Sub(a, x), e), k))) == Mul(Sub(a, x), Add(k, Mul(x, e)))
  {
    hide Mul, Add, Sub;
    var d := Sub(a, x);
    MulSub(x, Mul(d, e), k);
    MulSwap(x, d, e);
    MulAdd(d, k, Mul(x, e));
    MulSub(k, a, x);
    HeadRegroup(Mul(a, k), Mul(x, k), Mul(d, Mul(x, e)));
  }

  lemma ShiftHead(t: seq<Scalar>, k: Scalar, u: seq<Scalar>, x: Scalar)
    requires |t| == |u| > 0 && u[0] == Sub(t[0], k) && u[1..] == t[1..]
    ensures Eval(u, x) == Sub(Eval(t, x), k)
  {
    hide Mul;
    SubSwap(t[0], k, Mul(x, Eval(t[1..], x)));
  }

  lemma SubSwap(a: Scalar, k: Scalar, b: Scalar)
    ensures Add(Sub(a, k), b) == Sub(Add(a, b), k)
  {
  }

  lemma HeadRegroup(u: Scalar, v: Scalar, w: Scalar)
    ensures Add(u, Sub(w, v)) == Add(Sub(u, v), w)
  {
  }

  /** Coefficients of the product of all (x_i - X). */
  ghost function Annihilator(xs: seq<Scalar>): (r: seq<Scalar>)
    ensures |r| == |xs| + 1
  {
    if |xs| == 0 then [1] else TimesLinear(Annihilator(xs[..|xs| - 1]), xs[|xs| - 1])
  }

  function Differences(xs: seq<Scalar>, x: Scalar): (r: seq<Scalar>) {
    seq(|xs|, i requires 0 <= i < |xs| => Sub(xs[i], x))
  }

  lemma {:induction false} AnnihilatorSpec(xs: seq<Scalar>, x: Scalar)
    ensures Eval(Annihilator(xs), x) == Prod(Differences(xs, x))
  {
    hide Mul;
    if |xs| == 0 {
      MulZero(x);
      assert Eval([1], x) == Add(1, Mul(x, Eval([], x)));
    } else {
      var n := |xs| - 1;
      AnnihilatorSpec(xs[..n], x);
      TimesLinearSpec(Annihilator(xs[..n]), xs[n], x);
      assert Differences(xs, x)[..n] == Differences(xs[..n], x);
      MulComm(Sub(xs[n], x), Prod(Differences(xs[..n], x)));
    }
  }

  // ------------------------------------------------------------- interpolation

  /** The weighted sum of polynomials of one length. */
  ghost function Combine(ws: seq<Scalar>, ps: seq<seq<Scalar>>, len: nat): (r: seq<Scalar>)
    requires |ws| == |ps| && forall i :: 0 <= i < |ps| ==> |ps[i]| == len
    ensures |r| == len
  {
    if |ws| == 0 then seq(len, i => 0)
    else
      var n := |ws| - 1;
      var low, p := Combine(ws[..n], ps[..n], len), ps[n];
      seq(len, i requires 0 <= i < len => Add(low[i], Mul(ws[n], p[i])))
  }

  lemma {:induction false} CombineSpec(ws: seq<Scalar>, ps: seq<seq<Scalar>>, len: nat, x: Scalar, vs: seq<Scalar>)
    requires |ws| == |ps| == |vs| && forall i :: 0 <= i < |ps| ==> |ps[i]| == len
    requires forall i :: 0 <= i < |ps| ==> vs[i] == Mul(ws[i], Eval(ps[i], x))
    ensures Eval(Combine(ws, ps, len), x) == Sum(vs)
  {
    hide Mul;
    if |ws| == 0 {
      assert Combine(ws, ps, len) == Padded([], len);
      EvalPadded([], len, x);
    } else {
      var n := |ws| - 1;
      CombineSpec(ws[..n], ps[..n], len, x, vs[..n]);
      var top := seq(len, i requires 0 <= i < len => Mul(ws[n], ps[n][i]));
      EvalScale(ws[n], ps[n], top, x);
      EvalAdd(Combine(ws[..n], ps[..n], len), top, Combine(ws, ps, len), x);
    }
  }

  ghost function Bases(xs: seq<Scalar>): (r: seq<seq<Scalar>>)
    ensures |r| == |xs| && forall j :: 0 <= j < |xs| ==> |r[j]| == |xs|
  {
    seq(|xs|, j requires 0 <= j < |xs| => Annihilator(Without(xs, j)))
  }

  lemma BasisAtPoint(xs: seq<Scalar>, j: nat, k: nat)
    requires j < |xs| && k < |xs| && Distinct(xs)
    ensures Eval(Annihilator(Without(xs, j)), xs[k]) == 0 <==> j != k
  {
    var ys := Without(xs, j);
    var ds := Differences(ys, xs[k]);
    AnnihilatorSpec(ys, xs[k]);
    ProdNonZero(ds);
    hide Mul, Eval, Prod, Annihilator;
    if j != k {
      var i := if k < j then k else k - 1;
      assert ys[i] == xs[k] && ds[i] == 0;
    } else {
      forall i | 0 <= i < |ds| ensures ds[i] != 0 {
        assert ys[i] == if i < j then xs[i] else xs[i + 1];
      }
    }
  }

  /** The weight that gives basis j the value f(x_j) at x_j. */
  ghost function Weight(xs: seq<Scalar>, f: seq<Scalar>, j: nat): (r: Scalar)
    requires j < |xs|
  {
    Mul(Eval(f, xs[j]), Inv(Eval(Annihilator(Without(xs, j)), xs[j])))
  }

  ghost function Weights(xs: seq<Scalar>, f: seq<Scalar>): (r: seq<Scalar>)
    ensures |r| == |xs|
  {
    seq(|xs|, j requires 0 <= j < |xs| => Weight(xs, f, j))
  }

  /** The interpolant agrees with f at every x_k. */
  lemma InterpolantAtPoint(xs: seq<Scalar>, f: seq<Scalar>, k: nat)
    requires k < |xs| && Distinct(xs)
    ensures Eval(Combine(Weights(xs, f), Bases(xs), |xs|), xs[k]) == Eval(f, xs[k])
  {
    var ws, ps, n := Weights(xs, f), Bases(xs), |xs|;
    var vs := seq(n, j requires 0 <= j < n => Mul(ws[j], Eval(ps[j], xs[k])));
    CombineSpec(ws, ps, n, xs[k], vs);
    forall j | 0 <= j < n && j != k ensures vs[j] == 0 {
      BasisAtPoint(xs, j, k);
      MulZero(ws[j]);
    }
    SumSingle(vs, k);
    BasisAtPoint(xs, k, k);
    var b := Eval(ps[k], xs[k]);
    hide Mul, Inv;
    MulAssoc(Eval(f, xs[k]), Inv(b), b);
    InvWorks(b);
    MulOne(Eval(f, xs[k]));
  }

  /** The interpolant of f at |f| or more distinct points is f. */
  lemma Interpolation(xs: seq<Scalar>, f: seq<Scalar>, y: Scalar)
    requires |f| <= |xs| && Distinct(xs)
    ensures Eval(Combine(Weights(xs, f), Bases(xs), |xs|), y) == Eval(f, y)
  {
    var n := |xs|;
    var p, g := Combine(Weights(xs, f), Bases(xs), n), Negated(Padded(f, n));
    var diff := seq(n, i requires 0 <= i < n => Add(p[i], g[i]));
    forall x ensures Eval(diff, x) == Sub(Eval(p, x), Eval(f, x)) {
      EvalAdd(p, g, diff, x);
      EvalNeg(Padded(f, n), x);
      EvalPadded(f, n, x);
    }
    forall k | 0 <= k < n ensures Eval(diff, xs[k]) == 0 {
      InterpolantAtPoint(xs, f, k);
    }
    TooManyRoots(diff, xs, y);
  }
}
