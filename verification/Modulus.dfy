/** Exponentiation modulo n, accelerated by the Chinese remainder theorem when the factors are known. */
module Modulus {
  import opened Residues
  import opened Powers

  datatype Modulus = Plain(n: int) | Factored(n: int, p: int, q: int, pInv: int)

  /** A modulus whose cached factors are coprime and multiply to n. */
  ghost predicate Valid(m: Modulus) {
    && m.n > 1
    && (m.Factored? ==> m.p > 1 && m.q > 1 && m.n == m.p * m.q && IsUnit(m.p, m.q) && m.pInv == ModInverse(m.p, m.q))
  }

  function FromN(n: int): (m: Modulus) {
    Plain(n)
  }

  function FromFactors(p: int, q: int): (m: Modulus)
    requires q > 0
  {
    Factored(p * q, p, q, ModInverse(p, q))
  }

  lemma FromFactorsValid(p: int, q: int)
    requires p > 1 && q > 1 && IsUnit(p, q)
    ensures Valid(FromFactors(p, q))
  {
    MulMono(1, p, q);
  }

  /** What an exponent of either sign means: an inverse of the positive power when it is negative. */
  function PowI(x: int, e: int, n: int): (r: int)
    requires n > 0
  {
    if e >= 0 then Rem(Pow(x, e), n) else ModInverse(Rem(Pow(x, -e), n), n)
  }

  /** The recombination of the two halves. */
  function Garner(xp: int, xq: int, p: int, pInv: int, n: int): (r: int)
    requires n > 0
  {
    Rem(Rem(Rem(Rem(xq - xp, n) * pInv, n) * p, n) + xp, n)
  }

  /** The nested reductions are reductions of one expression. */
  lemma GarnerFlat(xp: int, xq: int, p: int, pInv: int, n: int)
    requires n > 0
    ensures Garner(xp, xq, p, pInv, n) == Rem((xq - xp) * (p * pInv) + xp, n)
  {
    hide Rem;
    var d := xq - xp;
    RemMul(d, pInv, n);
    RemMul(d * pInv, p, n);
    RemMulCong(Rem(d, n) * pInv, d * pInv, p, p, n);
    RemMul(Rem(d, n) * pInv, p, n);
    RemAdd((Rem(d, n) * pInv) * p, xp, n);
    RemAdd((d * pInv) * p, xp, n);
    RemMul(Rem(Rem(d, n) * pInv, n), p, n);
    RemAdd(Rem(Rem(d, n) * pInv, n) * p, xp, n);
    Reorder(d, pInv, p);
    RemAddCong(Rem(Rem(d, n) * pInv, n) * p, (d * pInv) * p, xp, xp, n);
  }

  lemma Reorder(d: int, a: int, p: int)
    ensures (d * a) * p == d * (p * a)
  {
  }

  /** Modulo p the first half survives, modulo q the second. */
  lemma GarnerHalves(xp: int, xq: int, p: int, q: int)
    requires p > 1 && q > 1 && IsUnit(p, q)
    ensures var r := (xq - xp) * (p * ModInverse(p, q)) + xp;
            Rem(r, p) == Rem(xp, p) && Rem(r, q) == Rem(xq, q)
  {
    var i := ModInverse(p, q);
    InverseWorks(p, q);
    hide Rem, ModInverse, IsUnit;
    var d := xq - xp;
    Reorder(d, i, p);
    RemShift(xp, p, d * i);
    RemSmall(1, q);
    RemMulCong(d, d, p * i, 1, q);
    assert d * 1 == d;
    RemAddCong(d * (p * i), d, xp, xp, q);
  }

  /** Garner's recombination of x^e mod p and x^e mod q is x^e mod p*q. */
  lemma GarnerPower(x: int, e: nat, p: int, q: int)
    requires p > 1 && q > 1 && IsUnit(p, q)
    ensures p * q > 0
    ensures Garner(Rem(Pow(x, e), p), Rem(Pow(x, e), q), p, ModInverse(p, q), p * q) == Rem(Pow(x, e), p * q)
  {
    hide Rem, ModInverse, IsUnit, Pow, Garner;
    var y := Pow(x, e);
    var xp, xq, i := Rem(y, p), Rem(y, q), ModInverse(p, q);
    MulMono(1, p, q);
    GarnerFlat(xp, xq, p, i, p * q);
    GarnerHalves(xp, xq, p, q);
    RemIdem(y, p);
    RemIdem(y, q);
    CrtUnique((xq - xp) * (p * i) + xp, y, p, q);
  }

  /** Exp refines plain exponentiation for all bases and exponents. */
  method Exp(m: Modulus, x: int, e: nat) returns (r: int)
    requires Valid(m)
    ensures r == Rem(Pow(x, e), m.n)
  {
    hide Rem, IsUnit, ModInverse, Pow;
    if m.Factored? {
      var xp := Rem(Pow(x, e), m.p);
      var xq := Rem(Pow(x, e), m.q);
      r := Rem(xq - xp, m.n);
      r := Rem(r * m.pInv, m.n);
      r := Rem(r * m.p, m.n);
      r := Rem(r + xp, m.n);
      GarnerPower(x, e, m.p, m.q);
    } else {
      r := Rem(Pow(x, e), m.n);
    }
  }

  /** ExpI: for a unit, a negative exponent gives the inverse of the positive power. */
  method ExpI(m: Modulus, x: int, e: int) returns (y: int)
    requires Valid(m)
    ensures y == PowI(x, e, m.n)
    ensures e >= 0 ==> y == Rem(Pow(x, e), m.n)
    ensures e < 0 && IsUnit(x, m.n) ==> 0 <= y < m.n && Rem(y * Pow(x, -e), m.n) == 1
  {
    hide Rem, IsUnit, ModInverse, Pow;
    y := Exp(m, x, if e < 0 then -e else e);
    var inverted := ModInverse(y, m.n);
    if e < 0 {
      y := inverted;
      if IsUnit(x, m.n) {
        PowIWorks(x, e, m.n);
      }
    }
  }

  /** A negative power of a unit undoes the positive one. */
  lemma PowIWorks(x: int, e: int, n: int)
    requires n > 1 && IsUnit(x, n) && e < 0
    ensures 0 <= PowI(x, e, n) < n && Rem(PowI(x, e, n) * Pow(x, -e), n) == 1
  {
    hide Rem, IsUnit, ModInverse, Pow;
    var y := Pow(x, -e);
    PowUnit(x, -e, n);
    RemIdem(y, n);
    UnitCong(Rem(y, n), y, n);
    InverseWorks(Rem(y, n), n);
    var i := ModInverse(Rem(y, n), n);
    RemMul(y, i, n);
    assert y * i == i * y;
  }

  /** What determines a negative power: multiplied with the positive one it gives 1. */
  lemma PowIUnique(x: int, e: int, n: int, z: int)
    requires n > 1 && IsUnit(x, n) && e < 0 && Rem(z * Pow(x, -e), n) == 1
    ensures PowI(x, e, n) == Rem(z, n)
  {
    hide Rem, IsUnit, ModInverse, Pow, PowI;
    var y, w := Pow(x, -e), PowI(x, e, n);
    PowIWorks(x, e, n);
    PowUnit(x, -e, n);
    assert w * y == y * w && z * y == y * z;
    UnitCancel(y, w, z, n);
    RemSmall(w, n);
  }
}
