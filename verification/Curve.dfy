/**
  Coordinates of points, as far as BIP-340 uses them: an arbitrary x coordinate that two points
  share exactly when they are equal or opposite, and an arbitrary parity of y that changes under
  negation of a non-identity point.
 */
module Curve {
  import opened Residues
  import opened Zq
  import opened Party

  /** The 32 bytes of an x coordinate, read as a number. */
  type XBytes = nat

  ghost predicate FlipsUnderNegation(f: Point -> bool) {
    forall p: Point :: p != 0 ==> f(Neg(p)) != f(p)
  }

  ghost predicate SharedByOpposites(f: Point -> XBytes) {
    forall p: Point, r: Point :: f(p) == f(r) <==> p == r || p == Neg(r)
  }

  lemma NotSelfOpposite(p: Point)
    requires p != 0
    ensures 2 * p != Q && Neg(p) != p
  {
    if 2 * p == Q {
      DividesWith(2, Q, p);
    }
  }

  function LowerHalf(): (f: Point -> bool)
    ensures FlipsUnderNegation(f)
  {
    var f := (p: Point) => 2 * p < Q;
    assert FlipsUnderNegation(f) by {
      forall p: Point | p != 0 ensures f(Neg(p)) != f(p) {
        NotSelfOpposite(p);
      }
    }
    f
  }

  function Smaller(): (f: Point -> XBytes)
    ensures SharedByOpposites(f)
  {
    (p: Point) => if 2 * p < Q then p else Neg(p)
  }

  type Parity = f: Point -> bool | FlipsUnderNegation(f) witness LowerHalf()
  type Abscissa = f: Point -> XBytes | SharedByOpposites(f) witness Smaller()

  const EvenY: Parity
  const X: Abscissa

  /** An x coordinate modulo the group order, an arbitrary function of it. */
  const XScalarOf: XBytes -> Scalar

  /** XScalar: zero for the identity. */
  function XScalar(p: Point): (r: Scalar) {
    if p == 0 then 0 else XScalarOf(X(p))
  }

  /** LiftX: the point with the given x coordinate and an even y coordinate, if there is one. */
  function LiftX(x: XBytes): (r: Option<Point>)
    ensures r.Some? ==> r.value != 0 && X(r.value) == x && EvenY(r.value)
    ensures r.None? ==> forall p: Point :: p != 0 && EvenY(p) ==> X(p) != x
  {
    if exists p: Point :: p != 0 && X(p) == x && EvenY(p) then
      var p: Point :| p != 0 && X(p) == x && EvenY(p);
      Some(p)
    else
      None
  }

  /** Lifting the x coordinate of a point gives it back, or its opposite when its y is odd. */
  lemma LiftXOfPoint(p: Point)
    requires p != 0
    ensures LiftX(X(p)) == Some(if EvenY(p) then p else Neg(p))
  {
    var even := if EvenY(p) then p else Neg(p);
    assert EvenY(even) && X(even) == X(p);
    var r := LiftX(X(p));
    assert r.Some? && X(r.value) == X(even);
  }
}
