/** The Blum-modulus proof: twisting to a quadratic residue, fourth roots, and N-th roots. */
module ZkMod {
  import opened Residues
  import opened Powers
  import opened Modulus
  import opened Paillier

  /** Distinct primes of equal length that are 3 modulo 4. */
  ghost predicate BlumPrimes(p: int, q: int) {
    GoodPrimes(p, q) && p % 4 == 3 && q % 4 == 3
  }

  // -------------------------------------------------------------- quadratic residues

  function Half(p: int): (h: int) {
    (p - 1) / 2
  }

  /** Euler's criterion, as isQRmodPQ evaluates it at one prime. */
  predicate Residue(y: int, p: int)
    requires p > 1
  {
    Rem(Pow(y, Half(p)), p) == 1
  }

  lemma HalfTwice(p: int)
    requires p % 4 == 3
    ensures 2 * Half(p) == p - 1 && Half(p) % 2 == 1
  {
  }

  /** A unit to the power of half of p - 1 is plus or minus one. */
  lemma SignOf(y: int, p: int)
    requires IsPrime(p) && p % 4 == 3 && IsUnit(y, p)
    ensures Half(p) >= 0 && (Rem(Pow(y, Half(p)), p) == 1 || Rem(Pow(y, Half(p)), p) == p - 1)
  {
    hide Rem, IsUnit, Pow;
    HalfTwice(p);
    var t := Pow(y, Half(p));
    Fermat(y, p);
    PowAdd(y, Half(p), Half(p));
    assert (t - 1) * (t + 1) == t * t - 1;
    RemSmall(1, p);
    CongDivides(t * t, 1, p);
    PrimeDivides(p, t - 1, t + 1);
    if Divides(p, t - 1) {
      CongDivides(t, 1, p);
    } else {
      CongDivides(t, -1, p);
      RemUnique(-1, p, -1, p - 1);
    }
  }

  /** The criterion is multiplicative on units. */
  lemma ResidueProduct(x: int, y: int, p: int)
    requires IsPrime(p) && p % 4 == 3 && IsUnit(x, p) && IsUnit(y, p)
    ensures Residue(x * y, p) <==> (Residue(x, p) <==> Residue(y, p))
  {
    hide Rem, IsUnit, Pow;
    SignOf(x, p);
    SignOf(y, p);
    var a, b := Pow(x, Half(p)), Pow(y, Half(p));
    PowProduct(x, y, Half(p));
    RemUnique(-1, p, -1, p - 1);
    RemSmall(1, p);
    var sa := if Residue(x, p) then 1 else -1;
    var sb := if Residue(y, p) then 1 else -1;
    RemMulCong(a, sa, b, sb, p);
    assert sa * sb == if Residue(x, p) == Residue(y, p) then 1 else -1;
  }

  lemma {:induction false} OddPower(k: nat)
    ensures Pow(-1, 2 * k + 1) == -1
  {
    if k == 0 {
      assert Pow(-1, 1) == -1 * Pow(-1, 0);
    } else {
      OddPower(k - 1);
      assert Pow(-1, 2 * k + 1) == -1 * Pow(-1, 2 * k);
      assert Pow(-1, 2 * k) == -1 * Pow(-1, 2 * k - 1);
    }
  }

  /** Minus one is not a residue modulo a prime that is 3 modulo 4. */
  lemma MinusOne(p: int)
    requires p > 2 && p % 4 == 3
    ensures !Residue(-1, p) && IsUnit(-1, p)
  {
    HalfTwice(p);
    OddPower(Half(p) / 2);
    hide Rem, IsUnit, Pow;
    RemUnique(-1, p, -1, p - 1);
    assert -1 * -1 == 1;
    RemSmall(1, p);
    UnitFrom(-1, -1, p);
  }

  // ------------------------------------------------------------------- squares

  ghost predicate IsSquare(y: int, n: int)
    requires n > 0
  {
    exists x :: Rem(x * x, n) == Rem(y, n)
  }

  lemma SquareWith(x: int, y: int, n: int)
    requires n > 0 && Rem(x * x, n) == Rem(y, n)
    ensures IsSquare(y, n)
  {
  }

  /** A quadratic residue: a unit that is a square. */
  ghost predicate QuadraticResidue(y: int, n: int)
    requires n > 0
  {
    IsUnit(y, n) && IsSquare(y, n)
  }

  /** What passes the criterion is a unit, and not a multiple of the prime. */
  lemma ResidueUnit(y: int, p: int)
    requires IsPrime(p) && p > 2 && Residue(y, p)
    ensures IsUnit(y, p) && !Divides(p, y)
  {
    hide Rem, Pow;
    if Divides(p, y) {
      MultipleFails(y, p);
    } else {
      PrimeUnit(y, p);
    }
  }

  lemma ZeroPower(y: int, e: nat, p: int)
    requires p > 1 && e > 0 && Divides(p, y)
    ensures Divides(p, Pow(y, e)) && Rem(Pow(y, e), p) == 0
  {
    hide Rem;
    assert Pow(y, e) == y * Pow(y, e - 1);
    DividesMul(p, y, Pow(y, e - 1));
    DividesRem(p, Pow(y, e));
  }

  lemma MultipleFails(y: int, p: int)
    requires p > 2 && Divides(p, y)
    ensures !Residue(y, p)
  {
    assert Half(p) > 0;
    ZeroPower(y, Half(p), p);
  }

  /** Euler's criterion is right at a prime that is 3 modulo 4. */
  lemma EulerCriterion(y: int, p: int)
    requires IsPrime(p) && p % 4 == 3 && IsUnit(y, p)
    ensures Residue(y, p) <==> IsSquare(y, p)
  {
    hide IsUnit;
    HalfTwice(p);
    if Residue(y, p) {
      hide Rem, Pow;
      var e := (Half(p) + 1) / 2;
      PowAdd(y, e, e);
      PowAdd(y, Half(p), 1);
      PowSelf(y);
      RemSmall(1, p);
      RemMulCong(Pow(y, Half(p)), 1, y, y, p);
      assert 1 * y == y;
      SquareWith(Pow(y, e), y, p);
    }
    if IsSquare(y, p) {
      var x :| Rem(x * x, p) == Rem(y, p);
      hide Rem, Pow;
      UnitCong(x * x, y, p);
      RootUnit(x, p);
      PowCong(x * x, y, Half(p), p);
      PowProduct(x, x, Half(p));
      PowAdd(x, Half(p), Half(p));
      Fermat(x, p);
    }
  }

  lemma RootUnit(x: int, p: int)
    requires IsPrime(p) && IsUnit(x * x, p)
    ensures IsUnit(x, p)
  {
    if Divides(p, x) {
      DividesMul(p, x, x);
      UnitNotDivisible(x * x, p);
    } else {
      PrimeUnit(x, p);
    }
  }

  lemma UnitNotDivisible(x: int, p: int)
    requires p > 1 && IsUnit(x, p)
    ensures !Divides(p, x)
  {
    InverseWorks(x, p);
    hide Rem, IsUnit, ModInverse;
    DividesRem(p, x);
    if Divides(p, x) {
      DividesMul(p, x, ModInverse(x, p));
      DividesRem(p, x * ModInverse(x, p));
    }
  }

  // ------------------------------------------------------------------- the twist

  /** (-1)^a * w^b * y */
  function Twisted(a: bool, b: bool, w: int, y: int): (r: int) {
    (if a then -1 else 1) * ((if b then w else 1) * y)
  }

  /** What the twist does to the criterion at one prime. */
  lemma TwistedResidue(a: bool, b: bool, w: int, y: int, p: int)
    requires IsPrime(p) && p % 4 == 3 && IsUnit(w, p) && IsUnit(y, p)
    ensures IsUnit(Twisted(a, b, w, y), p)
    ensures Residue(Twisted(a, b, w, y), p) <==>
            ((if b then Residue(w, p) == Residue(y, p) else Residue(y, p)) != a)
  {
    hide Residue, IsUnit;
    MinusOne(p);
    UnitMul(w, y, p);
    ResidueProduct(w, y, p);
    var inner := if b then w * y else y;
    assert 1 * y == y && 1 * inner == inner && (if b then w else 1) * y == inner;
    UnitMul(-1, inner, p);
    ResidueProduct(-1, inner, p);
  }

  /** The Jacobi symbol of a unit modulo p*q is -1 when it is a residue at exactly one prime. */
  predicate JacobiMinusOne(w: int, p: int, q: int)
    requires p > 1 && q > 1
  {
    Residue(w, p) != Residue(w, q)
  }

  predicate ResidueAtBoth(y: int, p: int, q: int)
    requires p > 1 && q > 1
  {
    Residue(y, p) && Residue(y, q)
  }

  /** At most one of the four twists is a residue at both primes. */
  lemma OneTwist(w: int, y: int, p: int, q: int, a: bool, b: bool, c: bool, d: bool)
    requires BlumPrimes(p, q) && IsUnit(w, p) && IsUnit(w, q) && IsUnit(y, p) && IsUnit(y, q)
    requires JacobiMinusOne(w, p, q)
    requires ResidueAtBoth(Twisted(a, b, w, y), p, q) && ResidueAtBoth(Twisted(c, d, w, y), p, q)
    ensures a == c && b == d
  {
    hide Residue, IsUnit, Twisted;
    TwistedResidue(a, b, w, y, p);
    TwistedResidue(a, b, w, y, q);
    TwistedResidue(c, d, w, y, p);
    TwistedResidue(c, d, w, y, q);
  }

  /** The criterion at both primes decides quadratic residues modulo the product. */
  lemma BothIsQuadratic(y: int, p: int, q: int)
    requires BlumPrimes(p, q) && p * q > 1
    ensures ResidueAtBoth(y, p, q) <==> QuadraticResidue(y, p * q)
  {
    hide Rem, IsUnit, Pow, Residue;
    if ResidueAtBoth(y, p, q) {
      ResidueUnit(y, p);
      ResidueUnit(y, q);
      UnitProduct(y, p, q);
      SquareRoot(y, p, q);
      SquareWith(Pow(y, (4 + Phi(p, q)) / 8), y, p * q);
    }
    if QuadraticResidue(y, p * q) {
      var x :| Rem(x * x, p * q) == Rem(y, p * q);
      UnitsAtPrimes(y, p, q);
      DividesWith(p, p * q, q);
      DividesWith(q, p * q, p);
      RemFactor(x * x, y, p, p * q);
      RemFactor(x * x, y, q, p * q);
      SquareWith(x, y, p);
      SquareWith(x, y, q);
      EulerCriterion(y, p);
      EulerCriterion(y, q);
    }
  }

  /** isQRmodPQ decides whether y is a unit and a square modulo p*q. */
  method IsQRmodPQ(y: int, pHalf: nat, qHalf: nat, p: int, q: int) returns (ok: bool)
    requires BlumPrimes(p, q) && p * q > 1 && pHalf == Half(p) && qHalf == Half(q)
    ensures ok <==> QuadraticResidue(y, p * q)
  {
    hide IsUnit, QuadraticResidue;
    BothIsQuadratic(y, p, q);
    var test := Rem(Pow(y, pHalf), p);
    var pOk := test == 1;
    test := Rem(Pow(y, qHalf), q);
    var qOk := test == 1;
    ok := pOk && qOk;
  }

  /** The twist that makeQuadraticResidue chooses: the first of three that is a residue, else the fourth. */
  ghost function TwistOf(y: int, w: int, n: int): (bool, bool)
    requires n > 0
  {
    if QuadraticResidue(Twisted(false, false, w, y), n) then (false, false)
    else if QuadraticResidue(Twisted(true, false, w, y), n) then (true, false)
    else if QuadraticResidue(Twisted(true, true, w, y), n) then (true, true)
    else (false, true)
  }

  /** makeQuadraticResidue, for any y: the fourth branch makes no test. */
  method MakeQuadraticResidue(y: int, w: int, pHalf: nat, qHalf: nat, n: int, p: int, q: int)
    returns (a: bool, b: bool, out: int)
    requires BlumPrimes(p, q) && n == p * q > 1 && pHalf == Half(p) && qHalf == Half(q)
    ensures (a, b) == TwistOf(y, w, n) && out == Rem(Twisted(a, b, w, y), n)
  {
    hide IsUnit, Rem, Half, Twisted, QuadraticResidue;
    out := Rem(y, n);
    a, b := false, false;
    TwistNone(w, y);
    TwistReduced(a, b, w, y, n);
    var ok := IsQRmodPQ(out, pHalf, qHalf, p, q);
    if ok {
      return;
    }
    TwistNegate(a, b, w, y, n);
    out := Rem(-out, n);
    a, b := true, false;
    TwistReduced(a, b, w, y, n);
    ok := IsQRmodPQ(out, pHalf, qHalf, p, q);
    if ok {
      return;
    }
    TwistMultiply(a, w, y, n);
    out := Rem(out * w, n);
    a, b := true, true;
    TwistReduced(a, b, w, y, n);
    ok := IsQRmodPQ(out, pHalf, qHalf, p, q);
    if ok {
      return;
    }
    TwistNegate(a, b, w, y, n);
    out := Rem(-out, n);
    a, b := false, true;
  }

  /** The test of a reduced twist is the test of the twist. */
  lemma TwistReduced(a: bool, b: bool, w: int, y: int, n: int)
    requires n > 0
    ensures QuadraticResidue(Rem(Twisted(a, b, w, y), n), n) <==> QuadraticResidue(Twisted(a, b, w, y), n)
  {
    hide IsUnit, Rem, Twisted;
    var t := Twisted(a, b, w, y);
    RemIdem(t, n);
    UnitCong(Rem(t, n), t, n);
    if IsSquare(t, n) {
      var x :| Rem(x * x, n) == Rem(t, n);
      SquareWith(x, Rem(t, n), n);
    }
    if IsSquare(Rem(t, n), n) {
      var x :| Rem(x * x, n) == Rem(Rem(t, n), n);
      SquareWith(x, t, n);
    }
  }

  /** For a unit y the chosen twist is a quadratic residue, and the only one of the four. */
  lemma TwistWorks(w: int, y: int, p: int, q: int)
    requires BlumPrimes(p, q) && p * q > 1 && IsUnit(w, p * q) && IsUnit(y, p * q) && JacobiMinusOne(w, p, q)
    ensures forall c, d ::
        QuadraticResidue(Twisted(c, d, w, y), p * q) <==> (c, d) == TwistOf(y, w, p * q)
  {
    hide IsUnit, Rem, Twisted, QuadraticResidue, Residue;
    UnitsAtPrimes(w, p, q);
    UnitsAtPrimes(y, p, q);
    forall c, d
      ensures QuadraticResidue(Twisted(c, d, w, y), p * q) <==> ResidueAtBoth(Twisted(c, d, w, y), p, q)
    {
      BothIsQuadratic(Twisted(c, d, w, y), p, q);
    }
    TwistExists(w, y, p, q);
    var (a, b) := TwistOf(y, w, p * q);
    OnlyTwist(w, y, p, q, a, b);
  }

  lemma TwistExists(w: int, y: int, p: int, q: int)
    requires BlumPrimes(p, q) && IsUnit(w, p) && IsUnit(w, q) && IsUnit(y, p) && IsUnit(y, q)
    requires JacobiMinusOne(w, p, q)
    ensures
      || ResidueAtBoth(Twisted(false, false, w, y), p, q) || ResidueAtBoth(Twisted(true, false, w, y), p, q)
      || ResidueAtBoth(Twisted(true, true, w, y), p, q) || ResidueAtBoth(Twisted(false, true, w, y), p, q)
  {
    hide IsUnit, Twisted, Residue;
    TwistedAtBoth(false, false, w, y, p, q);
    TwistedAtBoth(true, false, w, y, p, q);
    TwistedAtBoth(true, true, w, y, p, q);
    TwistedAtBoth(false, true, w, y, p, q);
  }

  lemma TwistedAtBoth(a: bool, b: bool, w: int, y: int, p: int, q: int)
    requires BlumPrimes(p, q) && IsUnit(w, p) && IsUnit(w, q) && IsUnit(y, p) && IsUnit(y, q)
    ensures ResidueAtBoth(Twisted(a, b, w, y), p, q) <==>
            && ((if b then Residue(w, p) == Residue(y, p) else Residue(y, p)) != a)
            && ((if b then Residue(w, q) == Residue(y, q) else Residue(y, q)) != a)
  {
    hide IsUnit, Twisted, Residue;
    TwistedResidue(a, b, w, y, p);
    TwistedResidue(a, b, w, y, q);
  }

  /** For a y that is no unit all tests fail, and the fourth twist is taken untested. */
  lemma TwistOfNonUnit(w: int, y: int, n: int)
    requires n > 1 && !IsUnit(y, n)
    ensures TwistOf(y, w, n) == (false, true)
  {
    hide IsUnit, Twisted;
    forall a, b ensures !IsUnit(Twisted(a, b, w, y), n) {
      if IsUnit(Twisted(a, b, w, y), n) {
        var t := Twisted(a, b, w, y);
        InverseWorks(t, n);
        TwistFactor(a, b, w, y, ModInverse(t, n));
        UnitFrom(y, Factor(a, b, w) * ModInverse(t, n), n);
      }
    }
  }

  /** (-1)^a * w^b */
  function Factor(a: bool, b: bool, w: int): (r: int) {
    (if a then -1 else 1) * (if b then w else 1)
  }

  lemma TwistFactor(a: bool, b: bool, w: int, y: int, i: int)
    ensures Twisted(a, b, w, y) * i == y * (Factor(a, b, w) * i)
  {
    var u, v := if a then -1 else 1, if b then w else 1;
    assert (u * (v * y)) * i == y * ((u * v) * i) by {
      assert u * (v * y) == (u * v) * y;
      Powers.MulAssoc(y, u * v, i);
    }
  }

  lemma OnlyTwist(w: int, y: int, p: int, q: int, a: bool, b: bool)
    requires BlumPrimes(p, q) && IsUnit(w, p) && IsUnit(w, q) && IsUnit(y, p) && IsUnit(y, q)
    requires JacobiMinusOne(w, p, q) && ResidueAtBoth(Twisted(a, b, w, y), p, q)
    ensures forall c, d :: ResidueAtBoth(Twisted(c, d, w, y), p, q) <==> c == a && d == b
  {
    hide Residue, IsUnit, Twisted;
    forall c, d ensures ResidueAtBoth(Twisted(c, d, w, y), p, q) <==> c == a && d == b {
      if ResidueAtBoth(Twisted(c, d, w, y), p, q) {
        OneTwist(w, y, p, q, a, b, c, d);
      }
    }
  }

  lemma TwistNone(w: int, y: int)
    ensures Twisted(false, false, w, y) == y
  {
  }

  lemma TwistNegate(a: bool, b: bool, w: int, y: int, n: int)
    requires n > 0
    ensures Rem(-Rem(Twisted(a, b, w, y), n), n) == Rem(Twisted(!a, b, w, y), n)
  {
    hide Rem;
    RemNeg(Twisted(a, b, w, y), n);
    assert Twisted(!a, b, w, y) == -Twisted(a, b, w, y);
  }

  lemma TwistMultiply(a: bool, w: int, y: int, n: int)
    requires n > 0
    ensures Rem(Rem(Twisted(a, false, w, y), n) * w, n) == Rem(Twisted(a, true, w, y), n)
  {
    hide Rem;
    RemMul(Twisted(a, false, w, y), w, n);
    assert Twisted(a, true, w, y) == Twisted(a, false, w, y) * w;
  }

  // ----------------------------------------------------------------- fourth roots

  /** fourthRootExponent */
  function FourthRootExponent(phi: int): (e: int)
    requires phi > 0
  {
    var e := (4 + phi) / 8;
    Rem(e * e, phi)
  }

  /** phi + 4 is a multiple of 8, and phi / 4 is the product of the halves. */
  lemma PhiShape(p: int, q: int)
    requires p % 4 == 3 && q % 4 == 3 && p > 0 && q > 0
    ensures Phi(p, q) == 4 * (Half(p) * Half(q)) && Half(p) * Half(q) > 0
    ensures 2 * ((4 + Phi(p, q)) / 8) == Half(p) * Half(q) + 1
  {
    var i, j := p / 4, q / 4;
    var a, b := Half(p), Half(q);
    assert a == 2 * i + 1 && b == 2 * j + 1 && p - 1 == 2 * a && q - 1 == 2 * b;
    MulMono(1, a, b);
    Doubles(a, b);
    var h := OddTimesOdd(i, j);
    assert 4 + Phi(p, q) == 8 * (h + 1);
  }

  lemma Doubles(a: int, b: int)
    ensures (2 * a) * (2 * b) == 4 * (a * b)
  {
  }

  lemma OddTimesOdd(i: int, j: int) returns (h: int)
    ensures (2 * i + 1) * (2 * j + 1) == 2 * h + 1
  {
    h := 2 * (i * j) + i + j;
  }

  /** A residue to the power of a multiple of half of p - 1 is one. */
  lemma ResiduePower(x: int, p: int, k: nat)
    requires p > 2 && Residue(x, p)
    ensures Half(p) * k >= 0 && Rem(Pow(x, Half(p) * k), p) == 1
  {
    hide Rem, Pow;
    PowPow(x, Half(p), k);
    RemSmall(1, p);
    PowCong(Pow(x, Half(p)), 1, k, p);
    PowOne(k);
  }

  /** Raising a residue to (phi + 4) / 8 is taking a square root. */
  lemma SquareRoot(x: int, p: int, q: int)
    requires BlumPrimes(p, q) && p * q > 1 && ResidueAtBoth(x, p, q)
    ensures (4 + Phi(p, q)) / 8 >= 0
    ensures var s := Pow(x, (4 + Phi(p, q)) / 8);
            Rem(s * s, p * q) == Rem(x, p * q) && ResidueAtBoth(s, p, q)
  {
    PhiShape(p, q);
    hide Rem, Pow, Half;
    var e, h := (4 + Phi(p, q)) / 8, Half(p) * Half(q);
    var s := Pow(x, e);
    assert Half(p) >= 0 && Half(q) >= 0 by { HalfNonneg(p); HalfNonneg(q); }
    PowAdd(x, e, e);
    PowAdd(x, h, 1);
    PowSelf(x);
    assert s * s == Pow(x, h) * x;
    ResiduePower(x, p, Half(q));
    ResiduePower(x, q, Half(p));
    assert Half(q) * Half(p) == h;
    PrimeNotDividesPrime(p, q);
    RemSmall(1, p);
    RemSmall(1, q);
    CrtUnique(Pow(x, h), 1, p, q);
    RemMulCong(Pow(x, h), 1, x, x, p * q);
    assert 1 * x == x;
    PowerResidue(x, e, p);
    PowerResidue(x, e, q);
  }

  lemma HalfNonneg(p: int)
    requires p > 0
    ensures Half(p) >= 0
  {
  }

  /** A power of a residue is a residue. */
  lemma PowerResidue(x: int, e: nat, p: int)
    requires p > 2 && Residue(x, p)
    ensures Residue(Pow(x, e), p)
  {
    hide Rem, Pow;
    PowPow(x, e, Half(p));
    PowPow(x, Half(p), e);
    assert e * Half(p) == Half(p) * e;
    RemSmall(1, p);
    PowCong(Pow(x, Half(p)), 1, e, p);
    PowOne(e);
  }

  lemma QuotientBound(e: int, k: int, phi: int, r: int)
    requires e >= 0 && phi > 0 && e == k * phi + r && r < phi
    ensures k >= 0
  {
    if k < 0 {
      MulMono(k, -1, phi);
    }
  }

  /** At a prime that divides phi + 1, exponents of units count modulo phi. */
  lemma ExponentModPhi(x: int, e: nat, p: int, m: nat)
    requires IsPrime(p) && IsUnit(x, p) && (p - 1) * m > 0
    ensures Rem(e, (p - 1) * m) >= 0 && Rem(Pow(x, Rem(e, (p - 1) * m)), p) == Rem(Pow(x, e), p)
  {
    hide Rem, Pow, IsUnit;
    var phi := (p - 1) * m;
    var k := Quotient(e, phi);
    RemRange(e, phi);
    var r := Rem(e, phi);
    assert k >= 0 by { QuotientBound(e, k, phi, r); }
    assert e == phi * k + r;
    PowAdd(x, phi * k, r);
    PowPow(x, phi, k);
    FermatMultiple(x, p, m);
    RemSmall(1, p);
    PowCong(Pow(x, phi), 1, k, p);
    PowOne(k);
    RemMulCong(Pow(x, phi * k), 1, Pow(x, r), Pow(x, r), p);
    assert 1 * Pow(x, r) == Pow(x, r);
  }

  /** The exponent that takes square roots, from the side of one prime: h is phi / 4. */
  ghost predicate RootExponent(e: nat, p: int, h: nat, k: nat) {
    2 * e == h + 1 && h == Half(p) * k && k % 2 == 1
  }

  /** u to that exponent squares to u, or to -u when u is no residue. */
  lemma SquareAt(u: int, e: nat, p: int, h: nat, k: nat)
    requires IsPrime(p) && p % 4 == 3 && IsUnit(u, p) && RootExponent(e, p, h, k)
    ensures Rem(Pow(u, e) * Pow(u, e), p) == Rem(if Residue(u, p) then u else -u, p)
  {
    SignOf(u, p);
    HalfNonneg(p);
    var sign := if Residue(u, p) then 1 else -1;
    assert Rem(Pow(u, Half(p)), p) == Rem(sign, p) by {
      RemSmall(1, p);
      RemUnique(-1, p, -1, p - 1);
    }
    hide Rem, Pow, IsUnit;
    PowPow(u, Half(p), k);
    PowCong(Pow(u, Half(p)), sign, k, p);
    assert Pow(sign, k) == sign by {
      if sign == 1 { PowOne(k); } else { OddPower(k / 2); }
    }
    PowAdd(u, e, e);
    PowAdd(u, h, 1);
    PowSelf(u);
    RemMulCong(Pow(u, h), sign, u, u, p);
    assert sign * u == if Residue(u, p) then u else -u;
  }

  /** Taking such a power twice and raising it to the fourth gives the same. */
  lemma FourthAt(u: int, e: nat, p: int, h: nat, k: nat)
    requires IsPrime(p) && p % 4 == 3 && IsUnit(u, p) && RootExponent(e, p, h, k)
    ensures e * e >= 0 && Rem(Pow(Pow(u, e * e), 4), p) == Rem(if Residue(u, p) then u else -u, p)
  {
    hide Rem, Pow, IsUnit, Residue, RootExponent;
    var s := Pow(u, e);
    var t := Pow(s, e);
    PowPow(u, e, e);
    PowUnit(u, e, p);
    SquareAt(u, e, p, h, k);
    SquareAt(s, e, p, h, k);
    FourIsTwoTwos(t);
    var r := if Residue(s, p) then s else -s;
    RemMulCong(t * t, r, t * t, r, p);
    assert r * r == s * s;
  }

  lemma ExponentPositive(h: int, e: int, k: int)
    requires h > 1 && 2 * e == h + 1
    ensures e * e != k * (4 * h)
  {
    if e * e == k * (4 * h) {
      assert 4 * (e * e) == (h + 1) * (h + 1);
      assert (16 * k - h - 2) * h == 1 by {
        assert (16 * k - h - 2) * h == 16 * (k * h) - h * h - 2 * h;
        assert k * (4 * h) == 4 * (k * h);
        assert (h + 1) * (h + 1) == h * h + 2 * h + 1;
      }
      DividesWith(h, 1, 16 * k - h - 2);
      UnitDivisor(h);
    }
  }

  /** Distinct primes make phi / 4 greater than one. */
  lemma HalvesBig(p: int, q: int)
    requires p % 4 == 3 && q % 4 == 3 && p > 0 && q > 0 && p != q
    ensures Half(p) * Half(q) > 1
  {
    HalfTwice(p);
    HalfTwice(q);
    var a, b := Half(p), Half(q);
    if a > 1 { MulMono(1, b, a); } else { MulMono(1, a, b); }
  }

  /** fourthRootExponent is positive. */
  lemma FourthPositive(p: int, q: int)
    requires BlumPrimes(p, q)
    ensures Phi(p, q) > 0 && FourthRootExponent(Phi(p, q)) > 0
  {
    PhiShape(p, q);
    HalvesBig(p, q);
    hide Rem, Half;
    var e, phi, h := (4 + Phi(p, q)) / 8, Phi(p, q), Half(p) * Half(q);
    RemRange(e * e, phi);
    if Rem(e * e, phi) == 0 {
      var k := Quotient(e * e, phi);
      ExponentPositive(h, e, k);
    }
  }

  /** At one prime, fourthRootExponent gives a fourth root of u, of -u when u is no residue, or zero. */
  lemma FourthRootAt(u: int, p: int, q: int)
    requires BlumPrimes(p, q)
    ensures Phi(p, q) > 0 && FourthRootExponent(Phi(p, q)) > 0
    ensures Rem(Pow(Pow(u, FourthRootExponent(Phi(p, q))), 4), p) ==
            Rem(if Divides(p, u) || Residue(u, p) then u else -u, p)
  {
    FourthPositive(p, q);
    PhiShape(p, q);
    HalfTwice(p);
    HalfTwice(q);
    hide Rem, Pow, Half, IsUnit, Residue;
    var e, phi := (4 + Phi(p, q)) / 8, Phi(p, q);
    var d := FourthRootExponent(phi);
    if Divides(p, u) {
      ZeroPower(u, d, p);
      ZeroPower(Pow(u, d), 4, p);
      DividesRem(p, u);
    } else {
      PrimeUnit(u, p);
      assert e >= 0 && RootExponent(e, p, Half(p) * Half(q), Half(q));
      ExponentModPhi(u, e * e, p, q - 1);
      PowCong(Pow(u, d), Pow(u, e * e), 4, p);
      FourthAt(u, e, p, Half(p) * Half(q), Half(q));
    }
  }

  /** A unit is not its own opposite modulo an odd prime. */
  lemma NotOpposite(u: int, p: int)
    requires IsPrime(p) && p > 2 && !Divides(p, u)
    ensures Rem(-u, p) != Rem(u, p)
  {
    hide Rem;
    if Rem(-u, p) == Rem(u, p) {
      CongDivides(u, -u, p);
      assert u - (-u) == 2 * u;
      PrimeDivides(p, 2, u);
      DivisorBound(p, 2);
    }
  }

  /** What has a fourth root by fourthRootExponent: at each prime a multiple of it, or a residue. */
  ghost predicate Rooted(u: int, p: int, q: int)
    requires p > 1 && q > 1
  {
    (Divides(p, u) || Residue(u, p)) && (Divides(q, u) || Residue(u, q))
  }

  /** fourthRootExponent gives true fourth roots, (u^e)^4 = u, exactly of those. */
  lemma FourthRoot(u: int, p: int, q: int)
    requires BlumPrimes(p, q) && p * q > 1
    ensures Phi(p, q) > 0 && FourthRootExponent(Phi(p, q)) > 0
    ensures Rem(Pow(Pow(u, FourthRootExponent(Phi(p, q))), 4), p * q) == Rem(u, p * q) <==> Rooted(u, p, q)
  {
    hide Rem, Pow, Residue, FourthRootExponent;
    FourthRootAt(u, p, q);
    FourthRootAt(u, q, p);
    assert Phi(q, p) == Phi(p, q);
    var v := Pow(Pow(u, FourthRootExponent(Phi(p, q))), 4);
    DividesWith(p, p * q, q);
    DividesWith(q, p * q, p);
    if Rem(v, p * q) == Rem(u, p * q) {
      RemFactor(v, u, p, p * q);
      RemFactor(v, u, q, p * q);
      if !Divides(p, u) { NotOpposite(u, p); }
      if !Divides(q, u) { NotOpposite(u, q); }
    }
    if Rooted(u, p, q) {
      PrimeNotDividesPrime(p, q);
      CrtUnique(v, u, p, q);
    }
  }

  lemma FourIsTwoTwos(t: int)
    ensures Pow(t, 4) == (t * t) * (t * t)
  {
    assert Pow(t, 2) == t * Pow(t, 1) && Pow(t, 1) == t * Pow(t, 0);
    PowAdd(t, 2, 2);
  }

  // ------------------------------------------------------------------ the proof

  datatype Response = Response(a: bool, b: bool, x: int, z: int)

  /** Response.Verify: z^n = y, and x^4 = (-1)^a * w^b * y modulo n. */
  predicate VerifyResponse(r: Response, n: int, w: int, y: int)
    requires n > 0
  {
    && Rem(Pow(r.z, n), n) == y
    && Rem((r.x * r.x) * (r.x * r.x), n) == Rem(Twisted(r.a, r.b, w, y), n)
  }

  /** y is an e-th power modulo n. */
  ghost predicate PowerModulo(y: int, e: nat, n: int)
    requires n > 0
  {
    exists x :: Rem(Pow(x, e), n) == Rem(y, n)
  }

  lemma FourFactors(x: int)
    ensures Pow(x, 4) == (x * x) * (x * x)
  {
    PowAdd(x, 2, 2);
    assert Pow(x, 1) == x * Pow(x, 0) && Pow(x, 2) == x * Pow(x, 1);
  }

  /** There is a response that verifies exactly when y is an n-th power and one of its twists a fourth power. */
  lemma AcceptedIff(n: int, w: int, y: int)
    requires n > 0 && 0 <= y < n
    ensures (exists r :: VerifyResponse(r, n, w, y)) <==>
            PowerModulo(y, n, n) && exists a, b :: PowerModulo(Twisted(a, b, w, y), 4, n)
  {
    hide Rem, Pow, Twisted;
    RemSmall(y, n);
    if r :| VerifyResponse(r, n, w, y) {
      FourFactors(r.x);
      assert PowerModulo(y, n, n) && PowerModulo(Twisted(r.a, r.b, w, y), 4, n);
    }
    if PowerModulo(y, n, n) && exists a, b :: PowerModulo(Twisted(a, b, w, y), 4, n) {
      var a, b :| PowerModulo(Twisted(a, b, w, y), 4, n);
      var z :| Rem(Pow(z, n), n) == Rem(y, n);
      var x :| Rem(Pow(x, 4), n) == Rem(Twisted(a, b, w, y), n);
      FourFactors(x);
      assert VerifyResponse(Response(a, b, x, z), n, w, y);
    }
  }

  lemma FermatRoot(u: int, p: int)
    requires IsPrime(p)
    ensures Rem(Pow(u, p), p) == Rem(u, p)
  {
    hide Rem, Pow;
    RemRange(u, p);
    RemIdem(u, p);
    FermatPower(Rem(u, p), p);
    PowCong(u, Rem(u, p), p, p);
  }

  /** No p-th power is 1 + p modulo p squared. */
  lemma NotPower(u: int, p: int)
    requires IsPrime(p)
    ensures p * p > 1 + p && Rem(Pow(u, p), p * p) != 1 + p
  {
    MulMono(2, p, p);
    hide Rem, Pow;
    if Rem(Pow(u, p), p * p) == 1 + p {
      DividesWith(p, p * p, p);
      RemSmall(1 + p, p * p);
      RemFactor(Pow(u, p), 1 + p, p, p * p);
      RemShift(1, p, 1);
      RemSmall(1, p);
      FermatRoot(u, p);
      OnePower(u, p);
    }
  }

  /**
    Soundness for a modulus that is not square-free: if the square of a prime divides n, then no response is ever
    accepted for a challenge that is 1 + p modulo that square.
   */
  lemma SquareFactorRejected(r: Response, n: int, w: int, y: int, p: int)
    requires n > 0 && IsPrime(p) && p * p > 0 && Divides(p * p, n) && Rem(y, p * p) == 1 + p
    ensures !VerifyResponse(r, n, w, y)
  {
    hide Rem, Pow, Twisted;
    var k :| n == k * (p * p);
    assert n == (k * p) * p;
    assert k * p >= 0 by { Positive(k * p, p); }
    PowPow(r.z, k * p, p);
    NotPower(Pow(r.z, k * p), p);
    if VerifyResponse(r, n, w, y) {
      RemIdem(Pow(r.z, n), n);
      RemFactor(Pow(r.z, n), y, p * p, n);
    }
  }

  lemma Positive(a: int, p: int)
    requires p > 0 && a * p > 0
    ensures a >= 0
  {
    if a < 0 {
      MulMono(a, 0, p);
    }
  }

  /** At one prime: raising to a multiple of phi plus one changes nothing, zero included. */
  lemma PowerBack(y: int, e: nat, p: int, m: nat, k: nat)
    requires IsPrime(p) && e == ((p - 1) * m) * k + 1
    ensures Rem(Pow(y, e), p) == Rem(y, p)
  {
    hide Rem, Pow, IsUnit;
    if Divides(p, y) {
      ZeroPower(y, e, p);
      DividesRem(p, y);
    } else {
      PrimeUnit(y, p);
      FermatMultiple(y, p, m);
      var phi := (p - 1) * m;
      PowPow(y, phi, k);
      RemSmall(1, p);
      PowCong(Pow(y, phi), 1, k, p);
      PowOne(k);
      PowAdd(y, phi * k, 1);
      PowSelf(y);
      RemMulCong(Pow(y, phi * k), 1, y, y, p);
      assert 1 * y == y;
    }
  }

  lemma InverseQuotient(n: int, phi: int) returns (k: int)
    requires n > 0 && phi > 1 && IsUnit(n, phi)
    ensures k >= 0 && ModInverse(n, phi) > 0 && ModInverse(n, phi) * n == phi * k + 1
  {
    InverseWorks(n, phi);
    hide Rem, IsUnit, ModInverse;
    var i := ModInverse(n, phi);
    if i == 0 {
      assert n * i == 0;
      RemSmall(0, phi);
    }
    k := Quotient(n * i, phi);
    assert k >= 0 by {
      MulMono(0, i, n);
      QuotientBound(n * i, k, phi, 1);
    }
  }

  /** Raising to the inverse of n modulo phi and then to n gives y back, for every y. */
  lemma NthRoot(y: int, p: int, q: int)
    requires GoodPrimes(p, q) && p * q > 1 && 0 <= y < p * q && Phi(p, q) > 1
    ensures ModInverse(p * q, Phi(p, q)) >= 0
    ensures Rem(Pow(Rem(Pow(y, ModInverse(p * q, Phi(p, q))), p * q), p * q), p * q) == y
  {
    PhiUnit(p, q);
    var n, phi := p * q, Phi(p, q);
    var k := InverseQuotient(n, phi);
    hide Rem, IsUnit, Pow, ModInverse;
    var i := ModInverse(n, phi);
    PowPow(y, i, n);
    PowerBack(y, i * n, p, q - 1, k);
    assert (q - 1) * (p - 1) == phi;
    PowerBack(y, i * n, q, p - 1, k);
    PrimeNotDividesPrime(p, q);
    CrtUnique(Pow(y, i * n), y, p, q);
    RemIdem(Pow(y, i), n);
    PowCong(Rem(Pow(y, i), n), Pow(y, i), n, n);
    RemSmall(y, n);
  }

  /** The response of NewProof to challenge y. */
  ghost function Answer(y: int, w: int, p: int, q: int): Response
    requires BlumPrimes(p, q) && p * q > 1 && Phi(p, q) > 1
  {
    var n, phi, t := p * q, Phi(p, q), TwistOf(y, w, p * q);
    RemRange(ExtGcd(Rem(n, phi), phi).1, phi);
    FourthPositive(p, q);
    Response(t.0, t.1, Rem(Pow(Rem(Twisted(t.0, t.1, w, y), n), FourthRootExponent(phi)), n),
             Rem(Pow(y, ModInverse(n, phi)), n))
  }

  /** When the response to a challenge verifies: it is a unit or zero, or w*y is a square at the other prime. */
  ghost predicate Answerable(y: int, w: int, p: int, q: int)
    requires p > 1 && q > 1 && p * q > 0
  {
    || IsUnit(y, p * q) || y == 0
    || (Divides(p, y) && !Divides(q, y) && IsSquare(w * y, q))
    || (Divides(q, y) && !Divides(p, y) && IsSquare(w * y, p))
  }

  /** Completeness, exactly: over all challenges an honest response verifies iff the challenge is answerable. */
  lemma AnswerVerifies(y: int, w: int, p: int, q: int)
    requires BlumPrimes(p, q) && p * q > 1 && Phi(p, q) > 1 && IsUnit(w, p * q) && JacobiMinusOne(w, p, q)
    requires 0 <= y < p * q
    ensures VerifyResponse(Answer(y, w, p, q), p * q, w, y) <==> Answerable(y, w, p, q)
  {
    var r, n, t := Answer(y, w, p, q), p * q, TwistOf(y, w, p * q);
    var u := Twisted(t.0, t.1, w, y);
    RootResponse(u, r.x, p, q);
    NthRoot(y, p, q);
    hide Rem, IsUnit, Pow, ModInverse, Residue, Twisted, FourthRootExponent, TwistOf, QuadraticResidue, Answer;
    if IsUnit(y, n) {
      TwistWorks(w, y, p, q);
      assert QuadraticResidue(u, n);
      BothIsQuadratic(u, p, q);
    } else {
      TwistOfNonUnit(w, y, n);
      TwistLast(w, y);
      NonUnitRooted(y, w, p, q);
    }
  }

  lemma TwistLast(w: int, y: int)
    ensures Twisted(false, true, w, y) == w * y
  {
  }

  /** The fourth-root half of the verification. */
  lemma RootResponse(u: int, x: int, p: int, q: int)
    requires BlumPrimes(p, q) && p * q > 1 && Phi(p, q) > 0 && FourthRootExponent(Phi(p, q)) >= 0
    requires x == Rem(Pow(Rem(u, p * q), FourthRootExponent(Phi(p, q))), p * q)
    ensures Rem((x * x) * (x * x), p * q) == Rem(u, p * q) <==> Rooted(u, p, q)
  {
    hide Rem, Pow, FourthRootExponent, Rooted;
    var n, e := p * q, FourthRootExponent(Phi(p, q));
    RemIdem(u, n);
    PowCong(Rem(u, n), u, e, n);
    RemIdem(Pow(u, e), n);
    PowCong(x, Pow(u, e), 4, n);
    FourIsTwoTwos(x);
    FourthRoot(u, p, q);
  }

  /** For a challenge that is no unit, w*y has a root exactly when the challenge is answerable. */
  lemma NonUnitRooted(y: int, w: int, p: int, q: int)
    requires BlumPrimes(p, q) && p * q > 1 && IsUnit(w, p * q) && 0 <= y < p * q && !IsUnit(y, p * q)
    ensures Rooted(w * y, p, q) <==> Answerable(y, w, p, q)
  {
    hide Rem, IsUnit, Residue, IsSquare;
    UnitsAtPrimes(w, p, q);
    if !Divides(p, y) && !Divides(q, y) {
      PrimeUnit(y, p);
      PrimeUnit(y, q);
      UnitProduct(y, p, q);
    }
    if y == 0 {
      DividesWith(p, 0, 0);
      DividesWith(q, 0, 0);
    } else if Divides(p, y) && Divides(q, y) {
      BothDivide(y, p, q);
    }
    FactorRooted(y, w, p);
    FactorRooted(y, w, q);
  }

  lemma FactorRooted(y: int, w: int, p: int)
    requires IsPrime(p) && p % 4 == 3 && IsUnit(w, p)
    ensures Divides(p, y) <==> Divides(p, w * y)
    ensures !Divides(p, y) ==> (Residue(w * y, p) <==> IsSquare(w * y, p))
  {
    hide Rem, IsUnit, Residue, IsSquare;
    if Divides(p, y) {
      DividesMul(p, y, w);
    } else {
      PrimeUnit(y, p);
      UnitMul(w, y, p);
      UnitNotDivisible(w * y, p);
      EulerCriterion(w * y, p);
    }
  }

  lemma BothDivide(y: int, p: int, q: int)
    requires DistinctPrimes(p, q) && Divides(p, y) && Divides(q, y) && 0 <= y < p * q
    ensures y == 0
  {
    PrimeNotDividesPrime(p, q);
    hide Rem, IsUnit;
    DividesRem(p, y);
    DividesRem(q, y);
    RemSmall(0, p);
    RemSmall(0, q);
    CrtUnique(y, 0, p, q);
    RemSmall(y, p * q);
    RemSmall(0, p * q);
  }

  /** One response of NewProof to challenge y. */
  method Respond(y: int, w: int, p: int, q: int, nInverse: nat, e: nat, m: Modulus) returns (r: Response)
    requires BlumPrimes(p, q) && Valid(m) && m.n == p * q && Phi(p, q) > 1
    requires nInverse == ModInverse(m.n, Phi(p, q)) && e == FourthRootExponent(Phi(p, q))
    ensures r == Answer(y, w, p, q)
  {
    hide Rem, IsUnit, Pow, ModInverse, Twisted, FourthRootExponent, Half, TwistOf;
    var z := Exp(m, y, nInverse);
    var pHalf, qHalf := Half(p), Half(q);
    HalfNonneg(p);
    HalfNonneg(q);
    var a, b, yPrime := MakeQuadraticResidue(y, w, pHalf, qHalf, m.n, p, q);
    var x := Exp(m, yPrime, e);
    r := Response(a, b, x, z);
  }

  lemma UnitsAtPrimes(x: int, p: int, q: int)
    requires p > 1 && q > 1 && p * q > 1 && IsUnit(x, p * q)
    ensures IsUnit(x, p) && IsUnit(x, q)
  {
    hide IsUnit;
    DividesWith(p, p * q, q);
    DividesWith(q, p * q, p);
    UnitFactor(x, p, p * q);
    UnitFactor(x, q, p * q);
  }

  /** NewProof for any challenges ys: the responses verify exactly where the challenge is answerable. */
  method NewProof(p: int, q: int, w: int, ys: seq<int>) returns (rs: seq<Response>)
    requires BlumPrimes(p, q) && p * q > 1 && IsUnit(w, p * q) && JacobiMinusOne(w, p, q)
    requires forall i :: 0 <= i < |ys| ==> 0 <= ys[i] < p * q
    ensures |rs| == |ys|
    ensures forall i :: 0 <= i < |ys| ==>
        (VerifyResponse(rs[i], p * q, w, ys[i]) <==> Answerable(ys[i], w, p, q))
  {
    hide Rem, IsUnit, Pow, ModInverse, Residue, VerifyResponse, Answerable, Answer;
    PhiUnit(p, q);
    PrimeNotDividesPrime(p, q);
    FromFactorsValid(p, q);
    var m := FromFactors(p, q);
    var phi := (p - 1) * (q - 1);
    InverseWorks(p * q, phi);
    var nInverse := ModInverse(p * q, phi);
    var e := FourthRootExponent(phi);
    assert e >= 0 by { RemRange(((4 + phi) / 8) * ((4 + phi) / 8), phi); }
    rs := [];
    for i := 0 to |ys|
      invariant |rs| == i
      invariant forall k :: 0 <= k < i ==> (VerifyResponse(rs[k], p * q, w, ys[k]) <==> Answerable(ys[k], w, p, q))
    {
      var r := Respond(ys[i], w, p, q, nInverse, e, m);
      AnswerVerifies(ys[i], w, p, q);
      rs := rs + [r];
    }
  }

  // -------------------------------------------------------------- a rejected honest response

  lemma SmallPrimes()
    ensures IsPrime(7) && IsPrime(11)
  {
    forall d | 2 <= d < 7 ensures !Divides(d, 7) {
      DividesRem(d, 7);
    }
    forall d | 2 <= d < 11 ensures !Divides(d, 11) {
      DividesRem(d, 11);
    }
  }

  lemma PowFive(b: int)
    ensures Pow(b, 3) == b * (b * b) && Pow(b, 5) == b * (b * (b * (b * b)))
  {
    assert Pow(b, 1) == b * Pow(b, 0) && Pow(b, 2) == b * Pow(b, 1) && Pow(b, 3) == b * Pow(b, 2);
    assert Pow(b, 4) == b * Pow(b, 3) && Pow(b, 5) == b * Pow(b, 4);
  }

  /** An honest response that is rejected: p = 7, q = 11, w = 2 and the challenge 14. */
  lemma RejectedResponse()
    ensures BlumPrimes(7, 11) && IsUnit(2, 77) && JacobiMinusOne(2, 7, 11)
    ensures !VerifyResponse(Answer(14, 2, 7, 11), 77, 2, 14)
  {
    SmallPrimes();
    PowFive(2);
    PowFive(28);
    assert Residue(2, 7) && !Residue(2, 11) && !Residue(28, 11);
    UnitFrom(2, 39, 77);
    UnitFrom(28, 2, 11);
    EulerCriterion(28, 11);
    DividesRem(7, 14);
    DividesRem(11, 14);
    hide IsUnit, Rem, Answer, VerifyResponse;
    if IsUnit(14, 77) {
      UnitsAtPrimes(14, 7, 11);
      UnitNotDivisible(14, 7);
    }
    AnswerVerifies(14, 2, 7, 11);
  }
}
