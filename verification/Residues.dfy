/** Integers modulo m: the arithmetic that saferith carries out on Nat and Modulus values. */
module Residues {

  function Rem(x: int, m: int): (r: int)
    requires m > 0
  {
    x % m
  }

  lemma MulMono(a: int, b: int, m: int)
    requires a <= b && m >= 0
    ensures a * m <= b * m
  {
    assert (b - a) * m >= 0;
  }

  /** The only multiple of m strictly between -m and m is zero. */
  lemma SmallMultiple(e: int, m: int, r: int)
    requires m > 0 && e * m == r && -m < r < m
    ensures e == 0 && r == 0
  {
    if e >= 1 {
      MulMono(1, e, m);
    }
    if e <= -1 {
      MulMono(e, -1, m);
    }
  }

  lemma RemUnique(x: int, m: int, k: int, r: int)
    requires m > 0 && x == k * m + r && 0 <= r < m
    ensures Rem(x, m) == r
  {
    var d := x / m;
    assert x == d * m + x % m;
    assert (k - d) * m == k * m - d * m;
    SmallMultiple(k - d, m, x % m - r);
  }

  lemma RemSmall(x: int, m: int)
    requires 0 <= x < m
    ensures Rem(x, m) == x
  {
    assert x == 0 * m + x;
    RemUnique(x, m, 0, x);
  }

  lemma RemRange(x: int, m: int)
    requires m > 0
    ensures 0 <= Rem(x, m) < m
  {
  }

  /** x is its remainder plus a multiple of m. */
  lemma Quotient(x: int, m: int) returns (k: int)
    requires m > 0
    ensures x == k * m + Rem(x, m)
  {
    k := x / m;
  }

  lemma RemShift(x: int, m: int, k: int)
    requires m > 0
    ensures Rem(x + k * m, m) == Rem(x, m)
  {
    hide Rem;
    var d := Quotient(x, m);
    RemRange(x, m);
    assert (d + k) * m == d * m + k * m;
    RemUnique(x + k * m, m, d + k, Rem(x, m));
  }

  lemma RemIdem(x: int, m: int)
    requires m > 0
    ensures Rem(Rem(x, m), m) == Rem(x, m)
  {
    hide Rem;
    RemRange(x, m);
    RemSmall(Rem(x, m), m);
  }

  lemma RemAdd(x: int, y: int, m: int)
    requires m > 0
    ensures Rem(Rem(x, m) + y, m) == Rem(x + y, m)
  {
    hide Rem;
    var k := Quotient(x, m);
    RemShift(Rem(x, m) + y, m, k);
  }

  lemma RemNeg(x: int, m: int)
    requires m > 0
    ensures Rem(-Rem(x, m), m) == Rem(-x, m)
  {
    hide Rem;
    var k := Quotient(x, m);
    assert (-k) * m == -(k * m);
    RemShift(-Rem(x, m), m, -k);
  }

  lemma RemMul(x: int, y: int, m: int)
    requires m > 0
    ensures Rem(Rem(x, m) * y, m) == Rem(x * y, m)
  {
    hide Rem;
    var k := Quotient(x, m);
    Expand(k, m, Rem(x, m), y);
    RemShift(Rem(x, m) * y, m, k * y);
  }

  lemma Expand(k: int, m: int, r: int, y: int)
    ensures (k * m + r) * y == r * y + (k * y) * m
  {
  }

  lemma RemAddCong(x: int, x': int, y: int, y': int, m: int)
    requires m > 0 && Rem(x, m) == Rem(x', m) && Rem(y, m) == Rem(y', m)
    ensures Rem(x + y, m) == Rem(x' + y', m)
  {
    hide Rem;
    RemAdd(x, y, m);
    RemAdd(x', y, m);
    RemAdd(y, x', m);
    RemAdd(y', x', m);
  }

  lemma RemMulCong(x: int, x': int, y: int, y': int, m: int)
    requires m > 0 && Rem(x, m) == Rem(x', m) && Rem(y, m) == Rem(y', m)
    ensures Rem(x * y, m) == Rem(x' * y', m)
  {
    hide Rem;
    RemMul(x, y, m);
    RemMul(x', y, m);
    RemMul(y, x', m);
    RemMul(y', x', m);
    assert x' * y == y * x' && x' * y' == y' * x';
  }

  // ------------------------------------------------------------ divisibility

  ghost predicate Divides(d: int, x: int) {
    exists k :: x == k * d
  }

  lemma DividesWith(d: int, x: int, k: int)
    requires x == k * d
    ensures Divides(d, x)
  {
  }

  lemma DividesRem(d: int, x: int)
    requires d > 0
    ensures Divides(d, x) <==> Rem(x, d) == 0
  {
    hide Rem;
    if Divides(d, x) {
      var k :| x == k * d;
      RemUnique(x, d, k, 0);
    }
    if Rem(x, d) == 0 {
      var k := Quotient(x, d);
      DividesWith(d, x, k);
    }
  }

  lemma CongDivides(x: int, y: int, m: int)
    requires m > 0
    ensures Rem(x, m) == Rem(y, m) <==> Divides(m, x - y)
  {
    hide Rem;
    var a := Quotient(x, m);
    var b := Quotient(y, m);
    if Rem(x, m) == Rem(y, m) {
      assert (a - b) * m == a * m - b * m;
      DividesWith(m, x - y, a - b);
    }
    if Divides(m, x - y) {
      var k :| x - y == k * m;
      RemShift(y, m, k);
    }
  }

  lemma DividesMul(d: int, x: int, y: int)
    requires Divides(d, x)
    ensures Divides(d, x * y) && Divides(d, y * x)
  {
    var k :| x == k * d;
    assert x * y == (k * y) * d;
    DividesWith(d, x * y, k * y);
    assert y * x == x * y;
  }

  lemma DividesAdd(d: int, x: int, y: int)
    requires Divides(d, x) && Divides(d, y)
    ensures Divides(d, x + y) && Divides(d, x - y)
  {
    var k :| x == k * d;
    var l :| y == l * d;
    assert (k + l) * d == k * d + l * d && (k - l) * d == k * d - l * d;
    DividesWith(d, x + y, k + l);
    DividesWith(d, x - y, k - l);
  }

  lemma DividesTrans(a: int, b: int, c: int)
    requires Divides(a, b) && Divides(b, c)
    ensures Divides(a, c)
  {
    var k :| c == k * b;
    DividesMul(a, b, k);
    assert c == b * k;
  }

  /** Congruence modulo a multiple of d is congruence modulo d. */
  lemma RemFactor(x: int, y: int, d: int, m: int)
    requires d > 0 && m > 0 && Divides(d, m) && Rem(x, m) == Rem(y, m)
    ensures Rem(x, d) == Rem(y, d)
  {
    hide Rem;
    CongDivides(x, y, m);
    DividesTrans(d, m, x - y);
    CongDivides(x, y, d);
  }

  // ------------------------------------------------------- units and inverses

  /** Extended Euclid: Bezout coefficients of a and b, with their common divisor. */
  function ExtGcd(a: int, b: nat): (r: (int, int, int))
    decreases b
  {
    if b == 0 then (a, 1, 0)
    else
      var (g, u, v) := ExtGcd(b, a % b);
      (g, v, u - (a / b) * v)
  }

  function Gcd(a: int, b: nat): (g: int) {
    ExtGcd(a, b).0
  }

  lemma {:induction false} Bezout(a: int, b: nat)
    ensures ExtGcd(a, b).1 * a + ExtGcd(a, b).2 * b == Gcd(a, b)
    decreases b
  {
    if b != 0 {
      Bezout(b, a % b);
      var (g, u, v) := ExtGcd(b, a % b);
      BezoutStep(a, b, a / b, a % b, u, v);
    }
  }

  lemma BezoutStep(a: int, b: int, d: int, r: int, u: int, v: int)
    requires a == d * b + r
    ensures v * a + (u - d * v) * b == u * b + v * r
  {
    assert v * a == v * (d * b) + v * r;
    assert v * (d * b) == (d * v) * b;
    assert (u - d * v) * b == u * b - (d * v) * b;
  }

  lemma {:induction false} GcdDivides(a: nat, b: nat)
    ensures Divides(Gcd(a, b), a) && Divides(Gcd(a, b), b)
    ensures Gcd(a, b) >= 0 && (a > 0 || b > 0 ==> Gcd(a, b) > 0)
    decreases b
  {
    if b == 0 {
      DividesWith(a, a, 1);
      DividesWith(a, 0, 0);
    } else {
      var g, d, r := Gcd(b, a % b), a / b, a % b;
      assert a == d * b + r;
      GcdDivides(b, r);
      GcdStep(g, a, b, d, r);
    }
  }

  lemma GcdStep(g: int, a: int, b: int, d: int, r: int)
    requires a == d * b + r && Divides(g, b) && Divides(g, r)
    ensures Divides(g, a)
  {
    DividesMul(g, b, d);
    DividesAdd(g, d * b, r);
  }

  /** x has an inverse modulo m. */
  predicate IsUnit(x: int, m: int)
    requires m > 0
  {
    Gcd(Rem(x, m), m) == 1
  }

  /** The inverse that saferith's ModInverse returns for a unit. */
  function ModInverse(x: int, m: int): (y: int)
    requires m > 0
  {
    Rem(ExtGcd(Rem(x, m), m).1, m)
  }

  lemma InverseWorks(x: int, m: int)
    requires m > 1 && IsUnit(x, m)
    ensures Rem(x * ModInverse(x, m), m) == 1
    ensures 0 <= ModInverse(x, m) < m
  {
    var r := Rem(x, m);
    var u, v := ExtGcd(r, m).1, ExtGcd(r, m).2;
    Bezout(r, m);
    hide Rem, ExtGcd;
    RemRange(u, m);
    assert u * r == 1 + (-v) * m by {
      assert (-v) * m == -(v * m);
    }
    RemShift(1, m, -v);
    RemSmall(1, m);
    RemIdem(x, m);
    RemIdem(u, m);
    RemMulCong(x, r, Rem(u, m), u, m);
    assert r * u == u * r;
  }

  lemma UnitFrom(x: int, y: int, m: int)
    requires m > 1 && Rem(x * y, m) == 1
    ensures IsUnit(x, m)
  {
    var r := Rem(x, m);
    var g := Gcd(r, m);
    RemRange(x, m);
    GcdDivides(r, m);
    hide Rem, Gcd, ExtGcd;
    RemMul(x, y, m);
    var k := Quotient(r * y, m);
    DividesMul(g, r, y);
    DividesMul(g, m, k);
    DividesAdd(g, r * y, k * m);
    assert Divides(g, 1);
    UnitDivisor(g);
  }

  lemma UnitDivisor(g: int)
    requires g > 0 && Divides(g, 1)
    ensures g == 1
  {
    var k :| 1 == k * g;
    if k <= 0 {
      MulMono(k, 0, g);
    } else {
      MulMono(1, k, g);
    }
  }

  lemma UnitMul(x: int, y: int, m: int)
    requires m > 1 && IsUnit(x, m) && IsUnit(y, m)
    ensures IsUnit(x * y, m)
  {
    InverseWorks(x, m);
    InverseWorks(y, m);
    var a, b := ModInverse(x, m), ModInverse(y, m);
    hide Rem, ModInverse, IsUnit;
    RemMulCong(x * a, 1, y * b, 1, m) by {
      RemSmall(1, m);
    }
    RemSmall(1, m);
    Shuffle(x, y, a, b);
    UnitFrom(x * y, a * b, m);
  }

  lemma Shuffle(x: int, y: int, a: int, b: int)
    ensures (x * a) * (y * b) == (x * y) * (a * b)
  {
  }

  /** A unit factor can be cancelled from both sides of a congruence. */
  lemma UnitCancel(a: int, x: int, y: int, m: int)
    requires m > 1 && IsUnit(a, m) && Rem(a * x, m) == Rem(a * y, m)
    ensures Rem(x, m) == Rem(y, m)
  {
    InverseWorks(a, m);
    var b := ModInverse(a, m);
    hide Rem, ModInverse, IsUnit;
    CancelSide(a, b, x, m);
    CancelSide(a, b, y, m);
    RemMulCong(a * x, a * y, b, b, m);
  }

  lemma CancelSide(a: int, b: int, x: int, m: int)
    requires m > 1 && Rem(a * b, m) == 1
    ensures Rem((a * x) * b, m) == Rem(x, m)
  {
    hide Rem;
    RemMul(a * b, x, m);
    assert 1 * x == x;
    assert (a * b) * x == (a * x) * b;
  }

  /** Congruent numbers are units together. */
  lemma UnitCong(x: int, y: int, m: int)
    requires m > 0 && Rem(x, m) == Rem(y, m)
    ensures IsUnit(x, m) == IsUnit(y, m)
  {
  }

  // ------------------------------------------------------------------- primes

  ghost predicate IsPrime(p: int) {
    p >= 2 && forall d :: 2 <= d < p ==> !Divides(d, p)
  }

  lemma PrimeUnit(a: int, p: int)
    requires IsPrime(p) && !Divides(p, a)
    ensures IsUnit(a, p)
  {
    var r := Rem(a, p);
    var g := Gcd(r, p);
    RemRange(a, p);
    GcdDivides(r, p);
    DividesRem(p, a);
    hide Rem, Gcd, ExtGcd;
    DivisorBound(g, r);
    assert g < 2 || !Divides(g, p);
  }

  lemma DivisorBound(d: int, x: int)
    requires d > 0 && x > 0 && Divides(d, x)
    ensures d <= x
  {
    var k :| x == k * d;
    if k <= 0 {
      MulMono(k, 0, d);
    } else {
      MulMono(1, k, d);
    }
  }

  /** Euclid's lemma. */
  lemma PrimeDivides(p: int, x: int, y: int)
    requires IsPrime(p) && Divides(p, x * y)
    ensures Divides(p, x) || Divides(p, y)
  {
    if !Divides(p, x) {
      PrimeUnit(x, p);
      DividesRem(p, x * y);
      DividesRem(p, y);
      RemSmall(0, p);
      assert x * 0 == 0;
      UnitCancel(x, y, 0, p);
    }
  }

  // ------------------------------------------------- Chinese remainder theorem

  /** Congruence modulo two coprime factors is congruence modulo their product. */
  lemma CrtUnique(x: int, y: int, p: int, q: int)
    requires p > 1 && q > 1 && IsUnit(p, q)
    requires Rem(x, p) == Rem(y, p) && Rem(x, q) == Rem(y, q)
    ensures p * q > 0 && Rem(x, p * q) == Rem(y, p * q)
  {
    MulMono(1, p, q);
    CongDivides(x, y, p);
    CongDivides(x, y, q);
    hide Rem, IsUnit;
    var k :| x - y == k * p;
    DividesRem(q, x - y);
    DividesRem(q, k);
    RemSmall(0, q);
    assert p * k == k * p && p * 0 == 0;
    UnitCancel(p, k, 0, q);
    var l :| k == l * q;
    assert x - y == l * (p * q) by {
      assert (l * q) * p == l * (p * q);
    }
    DividesWith(p * q, x - y, l);
    CongDivides(x, y, p * q);
  }
}
