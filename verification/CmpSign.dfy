/** CMP signing by n honest parties: pairwise conversions, the delta check, and the final signature. */
module CmpSign {
  import opened Residues
  import opened Zq
  import opened Party
  import opened Polynomials
  import Lagrange
  import opened Curve
  import opened Paillier
  import opened Mta
  import Ecdsa

  // ----------------------------------------------------------------- double sums

  ghost function Row(f: (nat, nat) -> int, i: nat, n: nat): int {
    if n == 0 then 0 else Row(f, i, n - 1) + f(i, n - 1)
  }

  ghost function Column(f: (nat, nat) -> int, n: nat, j: nat): int {
    if n == 0 then 0 else Column(f, n - 1, j) + f(n - 1, j)
  }

  /** The sum of f over rows below a and columns below b. */
  ghost function Block(f: (nat, nat) -> int, a: nat, b: nat): int {
    if a == 0 then 0 else Block(f, a - 1, b) + Row(f, a - 1, b)
  }

  lemma {:induction false} BlockColumn(f: (nat, nat) -> int, a: nat, b: nat)
    ensures Block(f, a, b + 1) == Block(f, a, b) + Column(f, a, b)
  {
    if a != 0 {
      BlockColumn(f, a - 1, b);
    }
  }

  lemma {:induction false} RowsAndColumns(f: (nat, nat) -> int, g: (nat, nat) -> int, m: nat, n: nat)
    requires m <= n && forall i: nat, j: nat :: i < n && j < n ==> f(i, j) + f(j, i) == g(i, j) + g(j, i)
    requires m < n
    ensures Row(f, m, m) + Column(f, m, m) == Row(g, m, m) + Column(g, m, m)
  {
    RowColumnUpTo(f, g, m, m, n);
  }

  lemma {:induction false} RowColumnUpTo(f: (nat, nat) -> int, g: (nat, nat) -> int, m: nat, t: nat, n: nat)
    requires t <= m < n && forall i: nat, j: nat :: i < n && j < n ==> f(i, j) + f(j, i) == g(i, j) + g(j, i)
    ensures Row(f, m, t) + Column(f, t, m) == Row(g, m, t) + Column(g, t, m)
  {
    if t != 0 {
      RowColumnUpTo(f, g, m, t - 1, n);
      assert f(m, t - 1) + f(t - 1, m) == g(m, t - 1) + g(t - 1, m);
    }
  }

  /** Two families that agree when symmetrized have the same double sum. */
  lemma {:induction false} SymmetricSums(f: (nat, nat) -> int, g: (nat, nat) -> int, m: nat, n: nat)
    requires m <= n && forall i: nat, j: nat :: i < n && j < n ==> f(i, j) + f(j, i) == g(i, j) + g(j, i)
    ensures Block(f, m, m) == Block(g, m, m)
  {
    if m != 0 {
      SymmetricSums(f, g, m - 1, n);
      BlockColumn(f, m - 1, m - 1);
      BlockColumn(g, m - 1, m - 1);
      RowsAndColumns(f, g, m - 1, n);
      assert f(m - 1, m - 1) + f(m - 1, m - 1) == g(m - 1, m - 1) + g(m - 1, m - 1);
    }
  }

  ghost function IntSum(s: seq<Scalar>, n: nat): int
    requires n <= |s|
  {
    if n == 0 then 0 else IntSum(s, n - 1) + s[n - 1]
  }

  lemma {:induction false} IntSumRed(s: seq<Scalar>, n: nat)
    requires n <= |s|
    ensures Red(IntSum(s, n)) == Sum(s[..n])
  {
    hide Red, Add;
    if n == 0 {
      RedSmall(0);
    } else {
      IntSumRed(s, n - 1);
      RedAdd(IntSum(s, n - 1), s[n - 1]);
      RedSmall(s[n - 1]);
      SumStep(s, n - 1);
    }
  }

  function Times(a: int, b: int): (r: int) {
    a * b
  }

  ghost function Products(k: seq<Scalar>, w: seq<Scalar>): (nat, nat) -> int {
    (i: nat, j: nat) => if i < |k| && j < |w| then Times(w[j], k[i]) else 0
  }

  lemma {:induction false} ProductRow(k: seq<Scalar>, w: seq<Scalar>, i: nat, n: nat)
    requires i < |k| && n <= |w|
    ensures Row(Products(k, w), i, n) == Times(k[i], IntSum(w, n))
  {
    hide Times;
    if n == 0 {
      TimesZero(k[i]);
    } else {
      ProductRow(k, w, i, n - 1);
      TimesSum(k[i], IntSum(w, n - 1), w[n - 1]);
    }
  }

  lemma TimesZero(a: int)
    ensures Times(a, 0) == 0 && Times(0, a) == 0
  {
  }

  lemma TimesSum(a: int, b: int, c: int)
    ensures Times(a, b + c) == Times(a, b) + Times(c, a)
    ensures Times(b + c, a) == Times(b, a) + Times(c, a)
  {
  }

  lemma {:induction false} ProductBlock(k: seq<Scalar>, w: seq<Scalar>, m: nat)
    requires m <= |k|
    ensures Block(Products(k, w), m, |w|) == Times(IntSum(k, m), IntSum(w, |w|))
  {
    hide Times;
    if m == 0 {
      TimesZero(IntSum(w, |w|));
    } else {
      ProductBlock(k, w, m - 1);
      ProductRow(k, w, m - 1, |w|);
      TimesSum(IntSum(w, |w|), IntSum(k, m - 1), k[m - 1]);
    }
  }

  // ------------------------------------------------------------------ conversions

  type Matrix = seq<seq<int>>

  predicate Square(m: Matrix, n: nat) {
    |m| == n && forall i :: 0 <= i < n ==> |m[i]| == n
  }

  /** Every pair has converted: i decrypted alpha[i][j], j kept beta[j][i], together w_j * k_i. */
  ghost predicate Converted(k: seq<Scalar>, w: seq<Scalar>, alpha: Matrix, beta: Matrix) {
    && |k| == |w| && Square(alpha, |k|) && Square(beta, |k|)
    && forall i, j :: 0 <= i < |k| && 0 <= j < |k| && i != j ==> alpha[i][j] + beta[j][i] == Times(w[j], k[i])
  }

  /** What party i adds up: its own product, and two values for every other party. */
  ghost function Terms(k: seq<Scalar>, w: seq<Scalar>, alpha: Matrix, beta: Matrix): (nat, nat) -> int {
    (i: nat, j: nat) =>
      if |k| == |w| && Square(alpha, |k|) && Square(beta, |k|) && i < |k| && j < |k| then
        if i == j then Times(w[i], k[i]) else alpha[i][j] + beta[i][j]
      else 0
  }

  /** The share loop of round 3, for one party. */
  method ShareOf(k: seq<Scalar>, w: seq<Scalar>, alpha: Matrix, beta: Matrix, i: nat) returns (share: Scalar)
    requires i < |k| == |w| && Square(alpha, |k|) && Square(beta, |k|)
    ensures share == Red(Row(Terms(k, w, alpha, beta), i, |k|))
  {
    hide Red, Times;
    var sum := Times(w[i], k[i]);
    ghost var f := Terms(k, w, alpha, beta);
    for j := 0 to |k|
      invariant sum == Row(f, i, j) + if i < j then 0 else Times(w[i], k[i])
    {
      if j != i {
        sum := sum + alpha[i][j];
        sum := sum + beta[i][j];
      }
    }
    share := Red(sum);
  }

  method AllShares(k: seq<Scalar>, w: seq<Scalar>, alpha: Matrix, beta: Matrix) returns (shares: seq<Scalar>)
    requires |k| == |w| && Square(alpha, |k|) && Square(beta, |k|)
    ensures |shares| == |k|
    ensures forall i :: 0 <= i < |k| ==> shares[i] == Red(Row(Terms(k, w, alpha, beta), i, |k|))
  {
    hide Red, Row, Terms;
    shares := [];
    for i := 0 to |k|
      invariant |shares| == i
      invariant forall t :: 0 <= t < i ==> shares[t] == Red(Row(Terms(k, w, alpha, beta), t, |k|))
    {
      var share := ShareOf(k, w, alpha, beta, i);
      shares := shares + [share];
    }
  }

  lemma {:induction false} ReducedBlock(f: (nat, nat) -> int, shares: seq<Scalar>, m: nat)
    requires m <= |shares| && forall i :: 0 <= i < |shares| ==> shares[i] == Red(Row(f, i, |shares|))
    ensures Sum(shares[..m]) == Red(Block(f, m, |shares|))
  {
    hide Red, Row, Add;
    if m == 0 {
      RedSmall(0);
    } else {
      ReducedBlock(f, shares, m - 1);
      SumStep(shares, m - 1);
      RedAdd(Block(f, m - 1, |shares|), Row(f, m - 1, |shares|));
    }
  }

  lemma SameSymmetrized(k: seq<Scalar>, w: seq<Scalar>, alpha: Matrix, beta: Matrix)
    requires Converted(k, w, alpha, beta)
    ensures |k| == |w|
    ensures forall i: nat, j: nat :: i < |k| && j < |k| ==>
        Terms(k, w, alpha, beta)(i, j) + Terms(k, w, alpha, beta)(j, i) == Products(k, w)(i, j) + Products(k, w)(j, i)
  {
    hide Times;
    forall i: nat, j: nat | i < |k| && j < |k|
      ensures Terms(k, w, alpha, beta)(i, j) + Terms(k, w, alpha, beta)(j, i) == Products(k, w)(i, j) + Products(k, w)(j, i)
    {
      if i != j {
        assert alpha[i][j] + beta[j][i] == Times(w[j], k[i]);
        assert alpha[j][i] + beta[i][j] == Times(w[i], k[j]);
      }
    }
  }

  /** The double-sum identity: after all conversions the shares add up to the product of the sums. */
  lemma SharesAddUp(k: seq<Scalar>, w: seq<Scalar>, alpha: Matrix, beta: Matrix, shares: seq<Scalar>)
    requires Converted(k, w, alpha, beta) && |shares| == |k|
    requires forall i :: 0 <= i < |k| ==> shares[i] == Red(Row(Terms(k, w, alpha, beta), i, |k|))
    ensures Sum(shares) == Mul(Sum(k), Sum(w))
  {
    hide Red, Row, Block, IntSum, Converted, Terms, Products;
    var n := |k|;
    var f, g := Terms(k, w, alpha, beta), Products(k, w);
    SameSymmetrized(k, w, alpha, beta);
    SymmetricSums(f, g, n, n);
    ProductBlock(k, w, n);
    ReducedBlock(f, shares, n);
    SumAll(shares);
    SumAll(k);
    SumAll(w);
    IntSumRed(k, n);
    IntSumRed(w, n);
    RedMul(IntSum(k, n), IntSum(w, n));
  }

  // ---------------------------------------------------------- the Paillier part

  /** The masks and nonces of all conversions of one kind. */
  datatype Coins = Coins(betaNeg: (nat, nat) -> int, s: (nat, nat) -> int, r: (nat, nat) -> int)

  ghost predicate GoodKeys(keys: seq<SecretKey>) {
    forall i :: 0 <= i < |keys| ==> GoodSecret(keys[i]) && LongKey(keys[i].public)
  }

  ghost predicate GoodCoins(c: Coins, keys: seq<SecretKey>) {
    && GoodKeys(keys)
    && forall i: nat, j: nat :: i < |keys| && j < |keys| ==>
         && InLPrime(c.betaNeg(i, j)) && keys[j].public.nNat > 0 && IsUnit(c.s(i, j), keys[j].public.nNat)
         && keys[i].public.nNat > 0 && IsUnit(c.r(i, j), keys[i].public.nNat)
  }

  /** Round 1: every party encrypts its share of k under its own key. */
  method EncryptShares(keys: seq<SecretKey>, k: seq<Scalar>, rho: seq<int>) returns (K: seq<Ciphertext>)
    requires |keys| == |k| == |rho| && GoodKeys(keys)
    requires forall i :: 0 <= i < |keys| ==> keys[i].public.nNat > 0 && IsUnit(rho[i], keys[i].public.nNat)
    ensures |K| == |k| && forall i :: 0 <= i < |k| ==> Encrypts(K[i].c, keys[i].public.nNat, k[i], rho[i])
  {
    hide IsUnit, Encrypts, Long, GoodPublic, GoodSecret;
    K := [];
    for i := 0 to |k|
      invariant |K| == i && forall t :: 0 <= t < i ==> Encrypts(K[t].c, keys[t].public.nNat, k[t], rho[t])
    {
      OddKey(keys[i].public);
      ScalarInRange(k[i], keys[i].public.nNat);
      var c := EncWithNonce(keys[i].public, k[i], rho[i]);
      var ct := new Ciphertext(c.value);
      K := K + [ct];
    }
  }

  /** Party i converts with all others: xs[j] is what j decrypts, ys[j] what i keeps. */
  method ConvertRow(keys: seq<SecretKey>, k: seq<Scalar>, w: Scalar, K: seq<Ciphertext>, rho: seq<int>, c: Coins, i: nat)
    returns (xs: seq<int>, ys: seq<int>)
    requires i < |keys| == |k| == |K| == |rho| && GoodCoins(c, keys)
    requires forall j :: 0 <= j < |k| ==> Encrypts(K[j].c, keys[j].public.nNat, k[j], rho[j])
    ensures |xs| == |ys| == |k|
    ensures forall j :: 0 <= j < |k| && j != i ==> xs[j] + ys[j] == Times(w, k[j])
  {
    hide IsUnit, Encrypts, Long, InLPrime, GoodSecret, GoodPublic;
    xs, ys := [], [];
    for j := 0 to |k|
      invariant |xs| == |ys| == j
      invariant forall b :: 0 <= b < j && b != i ==> xs[b] + ys[b] == Times(w, k[b])
    {
      if j == i {
        xs, ys := xs + [0], ys + [0];
      } else {
        var x, y := Convert(w, k[j], K[j], keys[i].public, keys[j], c.betaNeg(i, j), c.s(i, j), c.r(i, j), rho[j]);
        xs, ys := xs + [x.value], ys + [y];
      }
    }
  }

  /** Rounds 2 and 3: all parties convert w_i * k_j with all others, and decrypt what they receive. */
  method ConvertAll(keys: seq<SecretKey>, k: seq<Scalar>, w: seq<Scalar>, K: seq<Ciphertext>, rho: seq<int>, c: Coins)
    returns (alpha: Matrix, beta: Matrix)
    requires |keys| == |k| == |w| == |K| == |rho| && GoodCoins(c, keys)
    requires forall j :: 0 <= j < |k| ==> Encrypts(K[j].c, keys[j].public.nNat, k[j], rho[j])
    ensures Converted(k, w, alpha, beta)
  {
    hide Encrypts, GoodCoins, Times;
    var n := |k|;
    var sent: Matrix := [];
    beta := [];
    for i := 0 to n
      invariant |sent| == |beta| == i && forall a :: 0 <= a < i ==> |sent[a]| == |beta[a]| == n
      invariant forall a, b :: 0 <= a < i && 0 <= b < n && a != b ==> sent[a][b] + beta[a][b] == Times(w[a], k[b])
    {
      var xs, ys := ConvertRow(keys, k, w[i], K, rho, c, i);
      sent, beta := sent + [xs], beta + [ys];
    }
    alpha := seq(n, j requires 0 <= j < n => seq(n, i requires 0 <= i < n => sent[i][j]));
  }

  // -------------------------------------------------------------- rounds 3 to 5

  /** The sum of a list, as the accumulation loops compute it. */
  method Total(s: seq<Scalar>) returns (r: Scalar)
    ensures r == Sum(s)
  {
    hide Add;
    r := 0;
    for i := 0 to |s|
      invariant r == Sum(s[..i])
    {
      SumStep(s, i);
      r := Add(r, s[i]);
    }
    SumAll(s);
  }

  predicate NoZero(s: seq<Scalar>) {
    forall i :: 0 <= i < |s| ==> s[i] != 0
  }

  function BigShares(k: seq<Scalar>, Gamma: Point): (r: seq<Point>)
    ensures |r| == |k| && forall i :: 0 <= i < |k| ==> r[i] == Act(k[i], Gamma)
  {
    seq(|k|, i requires 0 <= i < |k| => Act(k[i], Gamma))
  }

  function GammaPoints(gamma: seq<Scalar>): (r: seq<Point>)
    ensures |r| == |gamma| && forall i :: 0 <= i < |gamma| ==> r[i] == ActOnBase(gamma[i])
  {
    seq(|gamma|, i requires 0 <= i < |gamma| => ActOnBase(gamma[i]))
  }

  /** sigma_i = r * chi_i + m * k_i */
  function SigmaShares(chi: seq<Scalar>, k: seq<Scalar>, r: Scalar, m: Scalar): (s: seq<Scalar>)
    requires |chi| == |k|
    ensures |s| == |k| && forall i :: 0 <= i < |k| ==> s[i] == Add(Mul(r, chi[i]), Mul(m, k[i]))
  {
    seq(|k|, i requires 0 <= i < |k| => Add(Mul(r, chi[i]), Mul(m, k[i])))
  }

  /** Sums of multiples of one point are multiples by the sum. */
  lemma ActSum(k: seq<Scalar>, p: Point, points: seq<Point>)
    requires |points| == |k| && forall i :: 0 <= i < |k| ==> points[i] == Mul(k[i], p)
    ensures Sum(points) == Mul(Sum(k), p)
  {
    hide Mul, Add;
    forall i | 0 <= i < |k| ensures points[i] == Mul(p, k[i]) {
      MulComm(p, k[i]);
    }
    SumScale(p, k, points);
    MulComm(p, Sum(k));
  }

  lemma SigmaSum(chi: seq<Scalar>, k: seq<Scalar>, r: Scalar, m: Scalar)
    requires |chi| == |k|
    ensures Sum(SigmaShares(chi, k, r, m)) == Add(Mul(r, Sum(chi)), Mul(m, Sum(k)))
  {
    hide Mul, Add;
    var a := seq(|k|, i requires 0 <= i < |k| => Mul(r, chi[i]));
    var b := seq(|k|, i requires 0 <= i < |k| => Mul(m, k[i]));
    SumScale(r, chi, a);
    SumScale(m, k, b);
    SumAdd(a, b, SigmaShares(chi, k, r, m));
  }

  /** The check of round 4 passes, and R is the inverse of k times the base point. */
  lemma DeltaConsistent(k: seq<Scalar>, gamma: seq<Scalar>, delta: Scalar)
    requires delta == Mul(Sum(k), Sum(gamma))
    ensures Sum(GammaPoints(gamma)) == ActOnBase(Sum(gamma))
    ensures ActOnBase(delta) == Sum(BigShares(k, ActOnBase(Sum(gamma))))
    ensures Sum(gamma) != 0 ==> Act(Inv(delta), ActOnBase(Sum(gamma))) == ActOnBase(Inv(Sum(k)))
  {
    hide Mul, Inv, Add;
    var kk, gg := Sum(k), Sum(gamma);
    ActSum(gamma, G, GammaPoints(gamma));
    ActSum(k, ActOnBase(gg), BigShares(k, ActOnBase(gg)));
    MulAssoc(kk, gg, G);
    if gg != 0 {
      InverseSplits(kk, gg);
      MulAssoc(Inv(delta), gg, G);
    }
  }

  /** (k*g)^-1 * g = k^-1, also when k is zero. */
  lemma InverseSplits(k: Scalar, g: Scalar)
    requires g != 0
    ensures Mul(Inv(Mul(k, g)), g) == Inv(k)
  {
    var d := Mul(k, g);
    if k == 0 {
      MulZero(g);
    } else {
      hide Red, Inv;
      assert d != 0 by {
        if d == 0 { NoZeroDivisors(k, g); }
      }
      InvWorks(d);
      InvWorks(k);
      var y := Mul(Inv(d), g);
      assert Mul(k, y) == 1 by {
        MulSwap(k, Inv(d), g);
      }
      Cancel(k, y, Inv(k));
    }
  }

  /** The signature of a run: R = k^-1 * G and s = k * (m + r*x). */
  ghost function Expected(k: seq<Scalar>, x: Scalar, hash: seq<Byte>): Ecdsa.Signature {
    var R := ActOnBase(Inv(Sum(k)));
    Ecdsa.Signature(R, Mul(Sum(k), Add(Ecdsa.FromHash(hash), Mul(XScalar(R), x))))
  }

  /** No share that is broadcast is zero, and neither are r and s. */
  ghost predicate NonDegenerate(k: seq<Scalar>, gamma: seq<Scalar>, deltas: seq<Scalar>, chis: seq<Scalar>,
                                x: Scalar, hash: seq<Byte>)
    requires |chis| == |k|
  {
    var sig := Expected(k, x, hash);
    && NoZero(GammaPoints(gamma)) && Sum(gamma) != 0 && NoZero(deltas) && NoZero(BigShares(k, ActOnBase(Sum(gamma))))
    && NoZero(SigmaShares(chis, k, XScalar(sig.R), Ecdsa.FromHash(hash)))
    && XScalar(sig.R) != 0 && sig.s != 0
  }

  /** The sum of the sigma shares is the s of the run. */
  lemma SigmaIsExpected(k: seq<Scalar>, chis: seq<Scalar>, x: Scalar, hash: seq<Byte>)
    requires |chis| == |k| && Sum(chis) == Mul(Sum(k), x)
    ensures var sig := Expected(k, x, hash);
            Sum(SigmaShares(chis, k, XScalar(sig.R), Ecdsa.FromHash(hash))) == sig.s
  {
    hide Mul, Add, Inv, XScalar;
    var sig := Expected(k, x, hash);
    var r, m, kk := XScalar(sig.R), Ecdsa.FromHash(hash), Sum(k);
    SigmaSum(chis, k, r, m);
    MulSwap(r, kk, x);
    MulAdd(kk, m, Mul(r, x));
    MulComm(m, kk);
    AddSwap(Mul(kk, Mul(r, x)), 0, Mul(kk, m), 0);
    Commute(Mul(kk, Mul(r, x)), Mul(kk, m));
  }

  lemma Commute(a: Scalar, b: Scalar)
    ensures Add(a, b) == Add(b, a)
  {
  }

  /** The expected signature verifies exactly when r and s are not zero. */
  lemma ExpectedVerifies(k: seq<Scalar>, x: Scalar, hash: seq<Byte>)
    ensures var sig := Expected(k, x, hash);
            Ecdsa.Verify(sig, ActOnBase(x), hash) <==> XScalar(sig.R) != 0 && sig.s != 0
  {
    hide Mul, Add, Inv, XScalar, Ecdsa.Verify;
    var sig, kk := Expected(k, x, hash), Sum(k);
    var e := Add(Ecdsa.FromHash(hash), Mul(XScalar(sig.R), x));
    Ecdsa.VerifyIff(sig, Inv(kk), x, hash);
    if kk == 0 {
      MulZero(e);
    } else {
      MulComm(Mul(kk, e), Inv(kk));
      DivMul(kk, e);
    }
  }

  /** What the conversions and the key guarantee of the broadcast shares. */
  ghost predicate HonestSums(k: seq<Scalar>, gamma: seq<Scalar>, deltas: seq<Scalar>, chis: seq<Scalar>, x: Scalar) {
    Sum(deltas) == Mul(Sum(k), Sum(gamma)) && Sum(chis) == Mul(Sum(k), x)
  }

  lemma IdentityRejected(k: seq<Scalar>)
    requires |k| > 0
    ensures !NoZero(BigShares(k, 0))
  {
    hide Mul;
    MulZero(k[0]);
    assert BigShares(k, 0)[0] == 0;
  }

  /** Rounds 3 to 5 as every party runs them on what all parties broadcast. */
  method Finish(k: seq<Scalar>, gamma: seq<Scalar>, deltas: seq<Scalar>, chis: seq<Scalar>, public: Point, hash: seq<Byte>)
    returns (r: Result<Ecdsa.Signature>)
    requires 0 < |k| == |gamma| == |deltas| == |chis|
    ensures r.Ok? ==> Ecdsa.Verify(r.value, public, hash)
    ensures forall x: Scalar :: public == ActOnBase(x) && HonestSums(k, gamma, deltas, chis, x) ==>
        (r.Ok? <==> NonDegenerate(k, gamma, deltas, chis, x, hash)) && (r.Ok? ==> r.value == Expected(k, x, hash))
  {
    hide Mul, Add, Inv, XScalar, Ecdsa.Verify, NoZero, BigShares, GammaPoints, SigmaShares, Expected;
    ghost var gg := Sum(gamma);
    var points := GammaPoints(gamma);
    var Gamma := Total(points);
    var bigDeltas := BigShares(k, Gamma);
    var delta := Total(deltas);
    var bigDelta := Total(bigDeltas);
    var deltaComputed := ActOnBase(delta);
    var bigR := Act(Inv(delta), Gamma);
    var xs := XScalar(bigR);
    var sigmas := SigmaShares(chis, k, xs, Ecdsa.FromHash(hash));
    var sigma := Total(sigmas);
    var sig := Ecdsa.Signature(bigR, sigma);
    forall x: Scalar | public == ActOnBase(x) && HonestSums(k, gamma, deltas, chis, x)
      ensures Gamma == ActOnBase(gg) && deltaComputed == bigDelta
      ensures gg == 0 ==> !NoZero(bigDeltas)
      ensures gg != 0 ==> sig == Expected(k, x, hash) && (Ecdsa.Verify(sig, public, hash) <==> xs != 0 && sigma != 0)
    {
      DeltaConsistent(k, gamma, delta);
      if gg == 0 {
        MulZero(G);
        IdentityRejected(k);
      } else {
        ExpectedPoint(k, x, hash);
        SigmaIsExpected(k, chis, x, hash);
        ExpectedVerifies(k, x, hash);
      }
    }
    if !NoZero(points) || !NoZero(deltas) || !NoZero(bigDeltas) {
      return Err("message contained empty fields");
    }
    if deltaComputed != bigDelta {
      return Err("computed delta is inconsistent");
    }
    if !NoZero(sigmas) {
      return Err("message contained empty fields");
    }
    if !Ecdsa.Verify(sig, public, hash) {
      return Err("failed to validate signature");
    }
    return Ok(sig);
  }

  lemma ExpectedPoint(k: seq<Scalar>, x: Scalar, hash: seq<Byte>)
    ensures Expected(k, x, hash).R == ActOnBase(Inv(Sum(k)))
  {
  }

  // ------------------------------------------------------------------ a whole run

  /** StartSign: secret and public shares are scaled by the Lagrange coefficients of the signers. */
  method Scale(ids: seq<ID>, shares: seq<Scalar>, publics: seq<Point>) returns (x: seq<Scalar>, publicKey: Point)
    requires |ids| == |shares| == |publics| && forall i, j :: 0 <= i < j < |ids| ==> ids[i] != ids[j]
    ensures |x| == |ids|
    ensures forall f :: SharesOf(ids, f, shares, publics) ==> Sum(x) == Eval(f, 0) && publicKey == ActOnBase(Eval(f, 0))
  {
    hide Mul, Add, Lagrange.Lambda, Eval;
    var lagrange := Lagrange.LagrangeCoefficients(ids);
    x := [];
    var scaled: seq<Point> := [];
    for j := 0 to |ids|
      invariant |x| == |scaled| == j
      invariant forall t :: 0 <= t < j ==>
          && x[t] == Mul(Lagrange.Lambda(Points(ids), t), shares[t])
          && scaled[t] == Act(Lagrange.Lambda(Points(ids), t), publics[t])
    {
      x := x + [Mul(lagrange[ids[j]], shares[j])];
      scaled := scaled + [Act(lagrange[ids[j]], publics[j])];
    }
    publicKey := Total(scaled);
    forall f | SharesOf(ids, f, shares, publics)
      ensures Sum(x) == Eval(f, 0) && Sum(scaled) == ActOnBase(Eval(f, 0))
    {
      Lagrange.Reconstruct(Points(ids), f, x);
      forall t | 0 <= t < |ids| ensures scaled[t] == Mul(x[t], G) {
        MulAssoc(Lagrange.Lambda(Points(ids), t), shares[t], G);
      }
      ActSum(x, G, scaled);
    }
  }

  /** The signers hold values of one polynomial, few enough to be determined by them. */
  ghost predicate SharesOf(ids: seq<ID>, f: seq<Scalar>, shares: seq<Scalar>, publics: seq<Point>) {
    && |f| <= |ids| == |shares| == |publics| && Lagrange.GoodPoints(Points(ids))
    && forall j :: 0 <= j < |ids| ==> shares[j] == Eval(f, ScalarOf(ids[j])) && publics[j] == ActOnBase(shares[j])
  }

  /**
    A whole run of any number of honest signers, for all shares, nonces and masks: unless a broadcast
    share, r or s is zero, it ends with the expected signature for the joint key; if one is, it ends
    with an error.
   */
  method Sign(ids: seq<ID>, shares: seq<Scalar>, publics: seq<Point>, keys: seq<SecretKey>, hash: seq<Byte>,
              k: seq<Scalar>, gamma: seq<Scalar>, rho: seq<int>, c1: Coins, c2: Coins, ghost f: seq<Scalar>)
    returns (r: Result<Ecdsa.Signature>, deltas: seq<Scalar>, chis: seq<Scalar>)
    requires 0 < |ids| == |shares| == |publics| == |keys| == |k| == |gamma| == |rho|
    requires forall i, j :: 0 <= i < j < |ids| ==> ids[i] != ids[j]
    requires SharesOf(ids, f, shares, publics) && GoodCoins(c1, keys) && GoodCoins(c2, keys)
    requires forall i :: 0 <= i < |keys| ==> keys[i].public.nNat > 0 && IsUnit(rho[i], keys[i].public.nNat)
    ensures |deltas| == |chis| == |k| && Sum(deltas) == Mul(Sum(k), Sum(gamma))
    ensures Sum(chis) == Mul(Sum(k), Eval(f, 0))
    ensures r.Ok? <==> NonDegenerate(k, gamma, deltas, chis, Eval(f, 0), hash)
    ensures r.Ok? ==> r.value == Expected(k, Eval(f, 0), hash) && Ecdsa.Verify(r.value, ActOnBase(Eval(f, 0)), hash)
  {
    hide Mul, Add, Inv, XScalar, Ecdsa.Verify, Expected, NonDegenerate, Eval, SharesOf, Encrypts, IsUnit, Converted, Red,
      Terms, Row;
    var x, publicKey := Scale(ids, shares, publics);
    var K := EncryptShares(keys, k, rho);
    var alpha, beta := ConvertAll(keys, k, gamma, K, rho, c1);
    var alphaHat, betaHat := ConvertAll(keys, k, x, K, rho, c2);
    assert Square(alpha, |k|) && Square(beta, |k|) by { ConvertedSquare(k, gamma, alpha, beta); }
    assert Square(alphaHat, |k|) && Square(betaHat, |k|) by { ConvertedSquare(k, x, alphaHat, betaHat); }
    deltas := AllShares(k, gamma, alpha, beta);
    chis := AllShares(k, x, alphaHat, betaHat);
    SharesAddUp(k, gamma, alpha, beta, deltas);
    SharesAddUp(k, x, alphaHat, betaHat, chis);
    r := Finish(k, gamma, deltas, chis, publicKey, hash);
    assert HonestSums(k, gamma, deltas, chis, Eval(f, 0));
  }

  lemma ConvertedSquare(k: seq<Scalar>, w: seq<Scalar>, alpha: Matrix, beta: Matrix)
    requires Converted(k, w, alpha, beta)
    ensures Square(alpha, |k|) && Square(beta, |k|)
  {
  }
}
