/** The proof that a number is an N-th power modulo N squared. */
module ZkNth {
  import opened Residues
  import opened Powers
  import opened Modulus
  import opened Paillier

  datatype Proof = Proof(A: int, Z: int)

  /** The challenge, of either sign: an arbitrary function of what is hashed. */
  const Challenge: (int, int, int) -> int

  /** IsValidNatModN */
  predicate IsValid(x: int, n: int)
    requires n > 0
  {
    0 <= x < n && IsUnit(x, n)
  }

  /** Valid numbers with Z^N = A * R^e modulo N squared. */
  ghost predicate AcceptsFor(n: int, R: int, proof: Proof, e: int)
    requires n > 1 && n * n > 1
  {
    && IsValid(proof.Z, n) && IsValid(proof.A, n * n)
    && Rem(Pow(proof.Z, n), n * n) == Rem(PowI(R, e, n * n) * proof.A, n * n)
  }

  /** Proof.Verify accepts. */
  ghost predicate Accepts(n: int, R: int, proof: Proof)
    requires n > 1 && n * n > 1
  {
    AcceptsFor(n, R, proof, Challenge(n, R, proof.A))
  }

  method Verify(pk: PublicKey, R: int, proof: Proof) returns (ok: bool)
    requires GoodPublic(pk)
    ensures pk.nNat > 1 && pk.nNat * pk.nNat > 1
    ensures ok <==> Accepts(pk.nNat, R, proof)
  {
    hide Rem, IsUnit, Pow, ModInverse;
    Square(pk.nNat);
    if !IsValid(proof.Z, pk.nNat) || !IsValid(proof.A, pk.nSquared.n) {
      return false;
    }
    var e := Challenge(pk.nNat, R, proof.A);
    var left := Exp(pk.nSquared, proof.Z, pk.nNat);
    var right := ExpI(pk.nSquared, R, e);
    right := Rem(right * proof.A, pk.nSquared.n);
    return left == right;
  }

  /** Units that agree modulo n have n-th powers that agree modulo n squared. */
  lemma PowerLifts(x: int, y: int, n: int)
    requires n > 1 && Rem(x, n) == Rem(y, n) && IsUnit(y, n)
    ensures n * n > 1 && Rem(Pow(x, n), n * n) == Rem(Pow(y, n), n * n)
  {
    Square(n);
    InverseWorks(y, n);
    var i := ModInverse(y, n);
    hide Rem, IsUnit, Pow, ModInverse;
    RemMulCong(x, y, i, i, n);
    OnePower(x * i, n);
    OnePower(y * i, n);
    PowProduct(x, i, n);
    PowProduct(y, i, n);
    InverseUnit(y, i, n);
    SameCofactor(Pow(x, n), Pow(y, n), Pow(i, n), n * n);
  }

  lemma InverseUnit(y: int, i: int, n: int)
    requires n > 1 && Rem(y * i, n) == 1
    ensures n * n > 1 && IsUnit(Pow(i, n), n * n)
  {
    hide Rem, IsUnit, Pow;
    assert i * y == y * i;
    UnitFrom(i, y, n);
    UnitSquare(i, n);
    PowUnit(i, n, n * n);
  }

  lemma SameCofactor(a: int, b: int, c: int, m: int)
    requires m > 1 && IsUnit(c, m) && Rem(a * c, m) == Rem(b * c, m)
    ensures Rem(a, m) == Rem(b, m)
  {
    hide Rem, IsUnit;
    assert a * c == c * a && b * c == c * b;
    UnitCancel(c, a, b, m);
  }

  lemma UnitSquare(x: int, n: int)
    requires n > 1 && IsUnit(x, n)
    ensures n * n > 1 && IsUnit(x, n * n)
  {
    UnitProduct(x, n, n);
  }

  /** The n-th power of rho^e, taken modulo n, is (rho^n)^e modulo n squared, for exponents of either sign. */
  lemma PowerCommutes(rho: int, e: int, n: int, R: int)
    requires n > 1 && IsUnit(rho, n) && n * n > 1 && R == Rem(Pow(rho, n), n * n)
    ensures IsUnit(PowI(rho, e, n), n)
    ensures Rem(Pow(PowI(rho, e, n), n), n * n) == Rem(PowI(R, e, n * n), n * n)
  {
    hide Rem, IsUnit, Pow, ModInverse, PowI;
    var k := if e < 0 then -e else e;
    var u, q := PowI(rho, e, n), Pow(rho, k);
    PowUnit(rho, k, n);
    PowPow(rho, k, n);
    PowPow(rho, n, k);
    assert k * n == n * k;
    RemIdem(Pow(rho, n), n * n);
    PowCong(R, Pow(rho, n), k, n * n);
    assert Rem(Pow(R, k), n * n) == Rem(Pow(q, n), n * n);
    if e >= 0 {
      PowIPositive(rho, e, n);
      PowIPositive(R, e, n * n);
      RemIdem(q, n);
      UnitCong(Rem(q, n), q, n);
      PowerLifts(u, q, n);
      RemIdem(Pow(R, k), n * n);
    } else {
      PowIWorks(rho, e, n);
      UnitFrom(u, q, n);
      OnePower(u * q, n);
      PowProduct(u, q, n);
      RootUnit(rho, n, R);
      RemMulCong(Pow(u, n), Pow(u, n), Pow(R, k), Pow(q, n), n * n);
      PowIUnique(R, e, n * n, Pow(u, n));
      RemIdem(Pow(u, n), n * n);
    }
  }

  lemma PowIPositive(x: int, e: nat, n: int)
    requires n > 0
    ensures PowI(x, e, n) == Rem(Pow(x, e), n)
  {
  }

  lemma RootUnit(rho: int, n: int, R: int)
    requires n > 1 && n * n > 1 && IsUnit(rho, n) && R == Rem(Pow(rho, n), n * n)
    ensures IsUnit(R, n * n)
  {
    hide Rem, IsUnit, Pow;
    UnitSquare(rho, n);
    PowUnit(rho, n, n * n);
    RemIdem(Pow(rho, n), n * n);
    UnitCong(R, Pow(rho, n), n * n);
  }

  /** An honest proof is accepted, for every nonce, root and challenge. */
  lemma Completeness(n: int, R: int, rho: int, alpha: int, proof: Proof)
    requires n > 1 && n * n > 1 && IsUnit(rho, n) && IsUnit(alpha, n) && R == Rem(Pow(rho, n), n * n)
    requires proof.A == Rem(Pow(alpha, n), n * n)
    requires proof.Z == Rem(PowI(rho, Challenge(n, R, proof.A), n) * alpha, n)
    ensures Accepts(n, R, proof)
  {
    hide Rem, IsUnit, Pow, ModInverse, PowI;
    var e := Challenge(n, R, proof.A);
    var u := PowI(rho, e, n);
    PowerCommutes(rho, e, n, R);
    UnitMul(u, alpha, n);
    RemIdem(u * alpha, n);
    UnitCong(proof.Z, u * alpha, n);
    PowerLifts(proof.Z, u * alpha, n);
    PowProduct(u, alpha, n);
    RemIdem(Pow(alpha, n), n * n);
    RemMulCong(Pow(u, n), PowI(R, e, n * n), Pow(alpha, n), proof.A, n * n);
    RemRange(u * alpha, n);
    RootUnit(alpha, n, proof.A);
    RemRange(Pow(alpha, n), n * n);
  }

  /** NewProof with nonce alpha: whatever the challenge, the proof is accepted. */
  method NewProof(pk: PublicKey, R: int, rho: int, alpha: int) returns (proof: Proof)
    requires GoodPublic(pk) && IsUnit(rho, pk.nNat) && IsUnit(alpha, pk.nNat)
    requires R == Rem(Pow(rho, pk.nNat), pk.nSquared.n)
    ensures pk.nNat > 1 && pk.nNat * pk.nNat > 1 && Accepts(pk.nNat, R, proof)
  {
    hide Rem, IsUnit, Pow, ModInverse, PowI, Accepts;
    Square(pk.nNat);
    var A := Exp(pk.nSquared, alpha, pk.nNat);
    var e := Challenge(pk.nNat, R, A);
    var Z := ExpI(pk.n, rho, e);
    Z := Rem(Z * alpha, pk.nNat);
    proof := Proof(A, Z);
    Completeness(pk.nNat, R, rho, alpha, proof);
  }

  // ------------------------------------------------------------- special soundness

  lemma PowerMeets(x: int, w: int, a: nat, b: nat, m: int)
    requires m > 1 && Rem(w * Pow(x, a), m) == 1
    ensures Rem(Pow(x, a + b) * w, m) == Rem(Pow(x, b), m)
  {
    hide Rem, Pow;
    PowAdd(x, a, b);
    RemSmall(1, m);
    RemMulCong(w * Pow(x, a), 1, Pow(x, b), Pow(x, b), m);
    Gather(w, Pow(x, a), Pow(x, b));
  }

  lemma Gather(w: int, a: int, b: int)
    ensures (w * a) * b == (a * b) * w
  {
  }

  /** Exponents of either sign add up. */
  lemma PowIShift(x: int, e: int, d: nat, m: int)
    requires m > 1 && IsUnit(x, m)
    ensures Rem(PowI(x, e + d, m), m) == Rem(Pow(x, d) * PowI(x, e, m), m)
  {
    hide Rem, IsUnit, Pow, ModInverse, PowI;
    if e >= 0 {
      PowIPositive(x, e, m);
      PowIPositive(x, e + d, m);
      PowAdd(x, d, e);
      RemIdem(Pow(x, e + d), m);
      RemIdem(Pow(x, e), m);
      RemMulCong(Pow(x, d), Pow(x, d), Pow(x, e), PowI(x, e, m), m);
    } else if e + d < 0 {
      PowIWorks(x, e, m);
      PowAdd(x, d, -(e + d));
      var w := PowI(x, e, m);
      Gather(w, Pow(x, d), Pow(x, -(e + d)));
      assert (Pow(x, d) * w) * Pow(x, -(e + d)) == w * Pow(x, -e) by {
        Trade3(w, Pow(x, d), Pow(x, -(e + d)));
      }
      PowIUnique(x, e + d, m, Pow(x, d) * w);
      RemIdem(Pow(x, d) * w, m);
    } else {
      PowIWorks(x, e, m);
      PowerMeets(x, PowI(x, e, m), -e, e + d, m);
      PowIPositive(x, e + d, m);
      RemIdem(Pow(x, e + d), m);
    }
  }

  lemma Trade3(w: int, a: int, b: int)
    ensures (a * w) * b == w * (a * b)
  {
  }

  /** Two answers to one commitment give an n-th root of R to the difference of the challenges. */
  lemma RootOfPower(n: int, R: int, A: int, Z: int, Z': int, e: int, d: nat) returns (U: int)
    requires n > 1 && n * n > 1 && IsUnit(R, n * n)
    requires AcceptsFor(n, R, Proof(A, Z), e) && AcceptsFor(n, R, Proof(A, Z'), e + d)
    ensures IsUnit(U, n * n) && Rem(Pow(U, n), n * n) == Rem(Pow(R, d), n * n)
  {
    hide Rem, IsUnit, Pow, ModInverse, PowI;
    var m := n * n;
    UnitSquare(Z, n);
    UnitSquare(Z', n);
    InverseWorks(Z, m);
    var i := ModInverse(Z, m);
    U := Z' * i;
    assert i * Z == Z * i;
    UnitFrom(i, Z, m);
    UnitMul(Z', i, m);
    Quotients(n, R, A, Z, Z', e, d, i);
  }

  lemma Quotients(n: int, R: int, A: int, Z: int, Z': int, e: int, d: nat, i: int)
    requires n > 1 && n * n > 1 && IsUnit(R, n * n) && Rem(Z * i, n * n) == 1
    requires AcceptsFor(n, R, Proof(A, Z), e) && AcceptsFor(n, R, Proof(A, Z'), e + d)
    ensures Rem(Pow(Z' * i, n), n * n) == Rem(Pow(R, d), n * n)
  {
    hide Rem, IsUnit, Pow, ModInverse, PowI;
    var m, w := n * n, PowI(R, e, n * n);
    PowIShift(R, e, d, m);
    RemMulCong(PowI(R, e + d, m), Pow(R, d) * w, A, A, m);
    RemMulCong(Pow(R, d), Pow(R, d), w * A, Pow(Z, n), m);
    assert (Pow(R, d) * w) * A == Pow(R, d) * (w * A) by { Associative(Pow(R, d), w, A); }
    assert Rem(Pow(Z', n), m) == Rem(Pow(R, d) * Pow(Z, n), m);
    PowProduct(Z', i, n);
    PowProduct(Z, i, n);
    RemMulCong(Pow(Z', n), Pow(R, d) * Pow(Z, n), Pow(i, n), Pow(i, n), m);
    Associative(Pow(R, d), Pow(Z, n), Pow(i, n));
    RemSmall(1, m);
    PowCong(Z * i, 1, n, m);
    PowOne(n);
    RemMulCong(Pow(R, d), Pow(R, d), Pow(Z * i, n), 1, m);
  }

  lemma Associative(a: int, b: int, c: int)
    ensures (a * b) * c == a * (b * c)
  {
  }

  /** A root of R^d and a d that is invertible modulo n make a root of R. */
  lemma RootFromPower(n: int, R: int, U: int, d: nat, m: int) returns (rho: int)
    requires n > 1 && m > 1 && IsUnit(d, n) && d > 0 && IsUnit(R, m) && IsUnit(U, m)
    requires Rem(Pow(U, n), m) == Rem(Pow(R, d), m)
    ensures IsUnit(rho, m) && Rem(Pow(rho, n), m) == Rem(R, m)
  {
    hide Rem, IsUnit, Pow, ModInverse;
    InverseWorks(d, n);
    var a := ModInverse(d, n);
    var k := Quotient(d * a, n);
    NotNegative(k, n, d, a);
    PowUnit(R, k, m);
    InverseWorks(Pow(R, k), m);
    var j := ModInverse(Pow(R, k), m);
    rho := Pow(U, a) * j;
    PowUnit(U, a, m);
    assert j * Pow(R, k) == Pow(R, k) * j;
    UnitFrom(j, Pow(R, k), m);
    UnitMul(Pow(U, a), j, m);
    PowerOfRoot(n, R, U, d, a, k, j, m);
  }

  lemma PowerExpands(n: int, R: int, U: int, d: nat, a: nat, k: nat, m: int)
    requires n > 1 && m > 1 && d * a == k * n + 1 && Rem(Pow(U, n), m) == Rem(Pow(R, d), m)
    ensures Rem(Pow(Pow(U, a), n), m) == Rem(Pow(Pow(R, k), n) * R, m)
  {
    hide Rem, Pow;
    PowPow(U, a, n);
    PowPow(U, n, a);
    assert a * n == n * a;
    PowCong(Pow(U, n), Pow(R, d), a, m);
    PowPow(R, d, a);
    PowPow(R, k, n);
    PowAdd(R, k * n, 1);
    PowFirst(R);
  }

  lemma PowerOfRoot(n: int, R: int, U: int, d: nat, a: nat, k: nat, j: int, m: int)
    requires n > 1 && m > 1 && d * a == k * n + 1 && Rem(Pow(U, n), m) == Rem(Pow(R, d), m)
    requires Rem(Pow(R, k) * j, m) == 1
    ensures Rem(Pow(Pow(U, a) * j, n), m) == Rem(R, m)
  {
    hide Rem, Pow;
    var u, r := Pow(U, a), Pow(R, k);
    PowerExpands(n, R, U, d, a, k, m);
    PowProduct(u, j, n);
    PowProduct(r, j, n);
    RootCancels(Pow(u, n), Pow(r, n), Pow(j, n), R, m) by {
      RemSmall(1, m);
      PowCong(r * j, 1, n, m);
      PowOne(n);
    }
  }

  lemma RootCancels(u: int, r: int, j: int, R: int, m: int)
    requires m > 1 && Rem(u, m) == Rem(r * R, m) && Rem(r * j, m) == 1
    ensures Rem(u * j, m) == Rem(R, m)
  {
    hide Rem;
    RemMulCong(u, r * R, j, j, m);
    Trade3(R, r, j);
    RemSmall(1, m);
    RemMulCong(R, R, r * j, 1, m);
  }

  /**
    Special soundness: two accepted answers to one commitment, for challenges whose difference is invertible modulo
    N, make an N-th root of R.
   */
  lemma SpecialSoundness(n: int, R: int, A: int, Z: int, Z': int, e: int, d: nat) returns (rho: int)
    requires n > 1 && n * n > 1 && IsUnit(R, n * n) && d > 0 && IsUnit(d, n)
    requires AcceptsFor(n, R, Proof(A, Z), e) && AcceptsFor(n, R, Proof(A, Z'), e + d)
    ensures IsUnit(rho, n * n) && Rem(Pow(rho, n), n * n) == Rem(R, n * n)
  {
    hide AcceptsFor, Rem, IsUnit, Pow;
    var U := RootOfPower(n, R, A, Z, Z', e, d);
    rho := RootFromPower(n, R, U, d, n * n);
  }
}
