/** Powers, Fermat's little theorem and Euler's theorem for the moduli p*q and (p*q)^2. */
module Powers {
  import opened Residues

  function Pow(b: int, e: nat): (r: int) {
    if e == 0 then 1 else b * Pow(b, e - 1)
  }

  lemma {:induction false} PowAdd(b: int, d: nat, e: nat)
    ensures Pow(b, d + e) == Pow(b, d) * Pow(b, e)
  {
    if d == 0 {
      assert 1 * Pow(b, e) == Pow(b, e);
    } else {
      PowAdd(b, d - 1, e);
      MulAssoc(b, Pow(b, d - 1), Pow(b, e));
    }
  }

  lemma MulAssoc(x: int, y: int, z: int)
    ensures x * (y * z) == (x * y) * z
  {
  }

  lemma {:induction false} PowProduct(a: int, b: int, e: nat)
    ensures Pow(a * b, e) == Pow(a, e) * Pow(b, e)
  {
    if e != 0 {
      PowProduct(a, b, e - 1);
      Shuffle(a, b, Pow(a, e - 1), Pow(b, e - 1));
    }
  }

  lemma {:induction false} PowPow(b: int, d: nat, e: nat)
    ensures d * e >= 0 && Pow(b, d * e) == Pow(Pow(b, d), e)
  {
    if e == 0 {
      assert d * e == 0;
    } else {
      assert d * e == d + d * (e - 1);
      PowPow(b, d, e - 1);
      PowAdd(b, d, d * (e - 1));
    }
  }

  lemma {:induction false} PowOne(e: nat)
    ensures Pow(1, e) == 1
  {
    if e != 0 {
      PowOne(e - 1);
    }
  }

  lemma {:induction false} PowCong(x: int, y: int, e: nat, m: int)
    requires m > 0 && Rem(x, m) == Rem(y, m)
    ensures Rem(Pow(x, e), m) == Rem(Pow(y, e), m)
  {
    hide Rem;
    if e != 0 {
      PowCong(x, y, e - 1, m);
      RemMulCong(x, y, Pow(x, e - 1), Pow(y, e - 1), m);
    }
  }

  lemma {:induction false} PowUnit(x: int, e: nat, m: int)
    requires m > 1 && IsUnit(x, m)
    ensures IsUnit(Pow(x, e), m)
  {
    hide IsUnit;
    if e == 0 {
      assert 1 * 1 == 1;
      RemSmall(1, m);
      UnitFrom(1, 1, m);
    } else {
      PowUnit(x, e - 1, m);
      UnitMul(x, Pow(x, e - 1), m);
    }
  }

  // ------------------------------------------------------- binomial coefficients

  function Choose(n: nat, k: nat): nat {
    if k == 0 then 1
    else if n == 0 then 0
    else Choose(n - 1, k - 1) + Choose(n - 1, k)
  }

  lemma {:induction false} ChooseEdge(n: nat, k: nat)
    requires k >= n
    ensures Choose(n, k) == if k == n then 1 else 0
  {
    if n != 0 {
      ChooseEdge(n - 1, k - 1);
      ChooseEdge(n - 1, k);
    }
  }

  lemma {:induction false} Absorption(n: nat, k: nat)
    requires 1 <= k && 1 <= n
    ensures k * Choose(n, k) == n * Choose(n - 1, k - 1)
  {
    if n == 1 {
      ChooseEdge(0, k);
      ChooseEdge(0, k - 1);
    } else {
      Absorption(n - 1, k);
      if k == 1 {
        assert Choose(n - 1, 0) == 1 && Choose(n - 2, 0) == 1;
      } else {
        Absorption(n - 1, k - 1);
        AbsorptionStep(n, k, Choose(n - 1, k - 1), Choose(n - 1, k), Choose(n - 2, k - 2), Choose(n - 2, k - 1));
      }
    }
  }

  lemma AbsorptionStep(n: int, k: int, a: int, b: int, c: int, d: int)
    requires k * b == (n - 1) * d && (k - 1) * a == (n - 1) * c && a == c + d
    ensures k * (a + b) == n * a
  {
    assert k * (a + b) == (k - 1) * a + a + k * b;
    assert (n - 1) * c + (n - 1) * d == (n - 1) * (c + d);
    assert n * a == (n - 1) * a + a;
  }

  ghost function Term(a: int, n: nat, k: nat): int {
    Choose(n, k) * Pow(a, k)
  }

  /** The first k terms of the expansion of (a + 1)^n. */
  ghost function Expansion(a: int, n: nat, k: nat): int {
    if k == 0 then 0 else Expansion(a, n, k - 1) + Term(a, n, k - 1)
  }

  lemma TermPascal(a: int, n: nat, k: nat)
    requires k >= 1
    ensures Term(a, n + 1, k) == Term(a, n, k) + a * Term(a, n, k - 1)
  {
    PascalStep(a, Pow(a, k - 1), Choose(n, k - 1), Choose(n, k));
  }

  lemma PascalStep(a: int, p: int, c: int, d: int)
    ensures (c + d) * (a * p) == d * (a * p) + a * (c * p)
  {
  }

  lemma {:induction false} ExpansionPascal(a: int, n: nat, k: nat)
    ensures Expansion(a, n + 1, k + 1) == Expansion(a, n, k + 1) + a * Expansion(a, n, k)
  {
    if k == 0 {
      assert Term(a, n + 1, 0) == 1 && Term(a, n, 0) == 1;
      assert Expansion(a, n + 1, 1) == Expansion(a, n + 1, 0) + Term(a, n + 1, 0);
      assert Expansion(a, n, 1) == Expansion(a, n, 0) + Term(a, n, 0);
    } else {
      ExpansionPascal(a, n, k - 1);
      TermPascal(a, n, k);
      hide Term;
      Distribute(a, Expansion(a, n, k - 1), Term(a, n, k - 1));
    }
  }

  lemma Distribute(a: int, x: int, y: int)
    ensures a * (x + y) == a * x + a * y
  {
  }

  lemma {:induction false} Binomial(a: int, n: nat)
    ensures Pow(a + 1, n) == Expansion(a, n, n + 1)
  {
    if n == 0 {
      assert Term(a, 0, 0) == 1;
      assert Expansion(a, 0, 1) == Expansion(a, 0, 0) + Term(a, 0, 0);
    } else {
      Binomial(a, n - 1);
      ExpansionPascal(a, n - 1, n);
      ChooseEdge(n - 1, n);
      assert Term(a, n - 1, n) == 0;
      hide Term, Choose;
      var e := Expansion(a, n - 1, n);
      assert Expansion(a, n - 1, n + 1) == e + Term(a, n - 1, n);
      PlusOne(a, e);
    }
  }

  lemma PlusOne(a: int, e: int)
    ensures (a + 1) * e == e + a * e
  {
  }

  lemma PrimeDividesChoose(p: int, k: nat)
    requires IsPrime(p) && 1 <= k < p
    ensures Divides(p, Choose(p, k))
  {
    Absorption(p, k);
    assert k * Choose(p, k) == Choose(p - 1, k - 1) * p;
    DividesWith(p, k * Choose(p, k), Choose(p - 1, k - 1));
    PrimeDivides(p, k, Choose(p, k));
    if Divides(p, k) {
      DivisorBound(p, k);
    }
  }

  lemma {:induction false} ExpansionModPrime(a: int, p: int, k: nat)
    requires IsPrime(p) && 1 <= k <= p
    ensures Rem(Expansion(a, p, k), p) == 1
  {
    if k == 1 {
      assert Term(a, p, 0) == 1;
      assert Expansion(a, p, 1) == Expansion(a, p, 0) + Term(a, p, 0);
      RemSmall(1, p);
    } else {
      ExpansionModPrime(a, p, k - 1);
      PrimeDividesChoose(p, k - 1);
      var term := Term(a, p, k - 1);
      DividesMul(p, Choose(p, k - 1), Pow(a, k - 1));
      var l :| term == l * p;
      RemShift(Expansion(a, p, k - 1), p, l);
    }
  }

  /** Fermat: a^p = a modulo a prime p. */
  lemma {:induction false} FermatPower(a: nat, p: int)
    requires IsPrime(p)
    ensures Rem(Pow(a, p), p) == Rem(a, p)
  {
    if a == 0 {
      assert Pow(0, p) == 0 * Pow(0, p - 1);
    } else {
      FermatPower(a - 1, p);
      Binomial(a - 1, p);
      ExpansionModPrime(a - 1, p, p);
      ChooseEdge(p, p);
      RemSmall(1, p);
      RemAddCong(Expansion(a - 1, p, p), 1, Pow(a - 1, p), a - 1, p);
    }
  }

  /** Fermat: a^(p-1) = 1 for every unit modulo a prime p. */
  lemma Fermat(a: int, p: int)
    requires IsPrime(p) && IsUnit(a, p)
    ensures Rem(Pow(a, p - 1), p) == 1
  {
    var r := Rem(a, p);
    RemRange(a, p);
    RemIdem(a, p);
    FermatPower(r, p);
    PowCong(a, r, p, p);
    hide Rem, IsUnit;
    RemSmall(1, p);
    assert a * 1 == a;
    UnitCancel(a, Pow(a, p - 1), 1, p);
  }

  lemma FermatMultiple(a: int, p: int, k: nat)
    requires IsPrime(p) && IsUnit(a, p)
    ensures (p - 1) * k >= 0 && Rem(Pow(a, (p - 1) * k), p) == 1
  {
    Fermat(a, p);
    PowPow(a, p - 1, k);
    RemSmall(1, p);
    PowCong(Pow(a, p - 1), 1, k, p);
    PowOne(k);
  }

  // --------------------------------------------------------- products of primes

  ghost predicate DistinctPrimes(p: int, q: int) {
    IsPrime(p) && IsPrime(q) && p != q
  }

  function Phi(p: int, q: int): int {
    (p - 1) * (q - 1)
  }

  lemma PrimeNotDividesPrime(p: int, q: int)
    requires DistinctPrimes(p, q)
    ensures IsUnit(p, q)
  {
    if Divides(q, p) {
      DivisorBound(q, p);
    } else {
      PrimeUnit(p, q);
    }
  }

  /** A unit modulo m is a unit modulo each factor d > 1 of m. */
  lemma UnitFactor(x: int, d: int, m: int)
    requires d > 1 && m > 1 && Divides(d, m) && IsUnit(x, m)
    ensures IsUnit(x, d)
  {
    InverseWorks(x, m);
    hide Rem, IsUnit, ModInverse;
    RemSmall(1, m);
    RemSmall(1, d);
    RemFactor(x * ModInverse(x, m), 1, d, m);
    UnitFrom(x, ModInverse(x, m), d);
  }

  /** Euler: x^phi = 1 modulo p*q for every unit x. */
  lemma Euler(x: int, p: int, q: int)
    requires DistinctPrimes(p, q)
    requires p * q > 1 && IsUnit(x, p * q)
    ensures Phi(p, q) >= 0 && Rem(Pow(x, Phi(p, q)), p * q) == 1
  {
    hide Rem, IsUnit;
    DividesWith(p, p * q, q);
    DividesWith(q, p * q, p);
    UnitFactor(x, p, p * q);
    UnitFactor(x, q, p * q);
    FermatMultiple(x, p, q - 1);
    FermatMultiple(x, q, p - 1);
    assert (q - 1) * (p - 1) == (p - 1) * (q - 1);
    PrimeNotDividesPrime(p, q);
    RemSmall(1, p);
    RemSmall(1, q);
    CrtUnique(Pow(x, Phi(p, q)), 1, p, q);
    RemSmall(1, p * q);
  }

  /** (1 + t*n)^e = 1 + e*t*n modulo n^2. */
  lemma {:induction false} PowOnePlus(t: int, n: int, e: nat)
    requires n > 0
    ensures n * n > 0 && Rem(Pow(1 + t * n, e), n * n) == Rem(1 + (e * t) * n, n * n)
  {
    assert n * n > 0;
    if e != 0 {
      PowOnePlus(t, n, e - 1);
      hide Rem;
      var y := 1 + ((e - 1) * t) * n;
      RemMulCong(1 + t * n, 1 + t * n, Pow(1 + t * n, e - 1), y, n * n);
      OnePlusStep(t, n, e);
      RemShift(1 + (e * t) * n, n * n, (e - 1) * t * t);
    } else {
      assert (0 * t) * n == 0;
    }
  }

  lemma OnePlusStep(t: int, n: int, e: int)
    ensures (1 + t * n) * (1 + ((e - 1) * t) * n) == 1 + (e * t) * n + ((e - 1) * t * t) * (n * n)
  {
    var u := (e - 1) * t;
    assert (1 + t * n) * (1 + u * n) == 1 + u * n + t * n + (t * n) * (u * n);
    assert u * n + t * n == (u + t) * n;
    assert u + t == e * t;
    assert (t * n) * (u * n) == (u * t) * (n * n);
  }

  lemma OnePlusMultiple(k: int, n: int)
    requires n > 1
    ensures n * n > 1 && Rem(1 + (n * k) * n, n * n) == 1
  {
    MulMono(2, n, n);
    hide Rem;
    SquareOut(n, k);
    RemShift(1, n * n, k);
    RemSmall(1, n * n);
  }

  lemma SquareOut(n: int, k: int)
    ensures (n * k) * n == k * (n * n)
  {
  }

  /** A number that is 1 modulo n has an n-th power that is 1 modulo n squared. */
  lemma OnePower(x: int, n: int)
    requires n > 1 && Rem(x, n) == 1
    ensures n * n > 1 && Rem(Pow(x, n), n * n) == 1
  {
    hide Rem, Pow;
    var k := Quotient(x, n);
    PowOnePlus(k, n, n);
    OnePlusMultiple(k, n);
    assert x == 1 + k * n;
  }
}
