/** FROST signing (Figures 2 and 3 of eprint 2020/852) by one honest signer among arbitrary ones. */
module FrostSign {
  import opened Zq
  import opened Polynomials
  import opened Party
  import opened Lagrange
  import opened Curve
  import opened FrostKeygen
  import T = Taproot

  type Message = T.Message

  /** Binding values and the plain challenge are arbitrary functions of what is hashed. */
  const Rho: (Message, seq<(Point, Point)>, ID) -> Scalar
  const Challenge: (Point, Point, Message) -> Scalar

  datatype Signature = Signature(R: Point, z: Scalar)

  datatype SignResult = PlainSignature(sig: Signature) | TaprootSignature(tsig: T.Signature) | Abort(error: string)

  /** Signature.Verify. */
  predicate Verify(sig: Signature, public: Point, m: Message) {
    Add(Act(Challenge(sig.R, public, m), public), sig.R) == ActOnBase(sig.z)
  }

  /** An accepted signature is accepted for another message exactly when the two challenges are the same. */
  lemma BindsMessage(sig: Signature, public: Point, m: Message, other: Message)
    requires Verify(sig, public, m) && public != 0
    ensures Verify(sig, public, other) <==> Challenge(sig.R, public, m) == Challenge(sig.R, public, other)
  {
    hide Mul;
    if Verify(sig, public, other) {
      var e, f := Challenge(sig.R, public, m), Challenge(sig.R, public, other);
      T.SameTerm(sig.R, Act(e, public), Act(f, public));
      MulComm(e, public);
      MulComm(f, public);
      Cancel(public, e, f);
    }
  }

  /** The key material a signing session starts from: at least t+1 signers of a consistent key. */
  ghost predicate GoodKey(self: ID, ids: seq<ID>, Y: Point, YShares: map<ID, Point>, s: Scalar, F: seq<Point>) {
    && GoodIDs(ids) && self in ids && 0 < |F| <= |ids|
    && Y == Eval(F, 0)
    && (forall k :: k in ids ==> k in YShares && YShares[k] == Eval(F, ScalarOf(k)))
    && ActOnBase(s) == YShares[self]
  }

  // ------------------------------------------------------------ group commitment

  function Bundle(ids: seq<ID>, D: map<ID, Point>, E: map<ID, Point>): (b: seq<(Point, Point)>)
    requires forall k :: k in ids ==> k in D && k in E
  {
    seq(|ids|, i requires 0 <= i < |ids| => (D[ids[i]], E[ids[i]]))
  }

  /** What the binding values are made from determines every signer's nonce commitments, and nothing else. */
  lemma BundleDetermines(ids: seq<ID>, D: map<ID, Point>, E: map<ID, Point>, D': map<ID, Point>, E': map<ID, Point>)
    requires forall k :: k in ids ==> k in D && k in E && k in D' && k in E'
    ensures Bundle(ids, D, E) == Bundle(ids, D', E') <==> forall k :: k in ids ==> D[k] == D'[k] && E[k] == E'[k]
  {
    var b, b' := Bundle(ids, D, E), Bundle(ids, D', E');
    if b == b' {
      forall k | k in ids ensures D[k] == D'[k] && E[k] == E'[k] {
        var i :| 0 <= i < |ids| && ids[i] == k;
        assert b[i] == b'[i];
      }
    }
  }

  function RShare(m: Message, ids: seq<ID>, D: map<ID, Point>, E: map<ID, Point>, l: ID): (r: Point)
    requires (forall k :: k in ids ==> k in D && k in E) && l in ids
  {
    Add(Act(Rho(m, Bundle(ids, D, E), l), E[l]), D[l])
  }

  /** The signers' contributions to R. */
  function RSharesOf(m: Message, ids: seq<ID>, D: map<ID, Point>, E: map<ID, Point>): (r: seq<Point>)
    requires forall k :: k in ids ==> k in D && k in E
    ensures |r| == |ids| && forall i :: 0 <= i < |ids| ==> r[i] == RShare(m, ids, D, E, ids[i])
  {
    seq(|ids|, i requires 0 <= i < |ids| => RShare(m, ids, D, E, ids[i]))
  }

  /** The binding value of every signer. */
  method BindingValues(m: Message, ids: seq<ID>, bundle: seq<(Point, Point)>) returns (rho: map<ID, Scalar>)
    ensures rho.Keys == IdSet(ids) && forall k :: k in ids ==> rho[k] == Rho(m, bundle, k)
  {
    rho := map[];
    for i := 0 to |ids|
      invariant forall k :: k in rho <==> k in ids[..i]
      invariant forall k :: k in rho ==> rho[k] == Rho(m, bundle, k)
    {
      rho := rho[ids[i] := Rho(m, bundle, ids[i])];
    }
  }

  method GroupCommitment(m: Message, ids: seq<ID>, D: map<ID, Point>, E: map<ID, Point>)
    returns (R: Point, shares: map<ID, Point>, rho: map<ID, Scalar>)
    requires forall k :: k in ids ==> k in D && k in E
    requires forall i, j :: 0 <= i < j < |ids| ==> ids[i] != ids[j]
    ensures shares.Keys == rho.Keys == IdSet(ids)
    ensures forall k :: k in ids ==> rho[k] == Rho(m, Bundle(ids, D, E), k) && shares[k] == RShare(m, ids, D, E, k)
    ensures R == Sum(RSharesOf(m, ids, D, E))
  {
    hide Mul, Add, Bundle, RShare;
    ghost var all := RSharesOf(m, ids, D, E);
    rho := BindingValues(m, ids, Bundle(ids, D, E));
    shares, R := map[], 0;
    for i := 0 to |ids|
      invariant forall k :: k in shares <==> k in ids[..i]
      invariant forall k :: k in shares ==> shares[k] == RShare(m, ids, D, E, k)
      invariant R == Sum(all[..i])
    {
      var l := ids[i];
      RShareIs(m, ids, D, E, l);
      shares := shares[l := Add(Act(rho[l], E[l]), D[l])];
      SumStep(all, i);
      R := Add(R, shares[l]);
    }
    SumAll(all);
  }

  lemma RShareIs(m: Message, ids: seq<ID>, D: map<ID, Point>, E: map<ID, Point>, l: ID)
    requires (forall k :: k in ids ==> k in D && k in E) && l in ids
    ensures RShare(m, ids, D, E, l) == Add(Act(Rho(m, Bundle(ids, D, E), l), E[l]), D[l])
  {
  }

  // ------------------------------------------------------------------ aggregation

  /** Step 7.b of Figure 3: the check of one response. */
  predicate ResponseOk(z: Scalar, c: Scalar, lambda: Scalar, Y: Point, R: Point) {
    Add(Act(c, Act(lambda, Y)), R) == ActOnBase(z)
  }

  /** Responses that all pass their check add up to a response for the group. */
  lemma Aggregate(
      ids: seq<ID>, F: seq<Point>, YShares: map<ID, Point>, rs: seq<Point>, zs: seq<Scalar>, c: Scalar)
    requires GoodIDs(ids) && 0 < |F| <= |ids| && |rs| == |zs| == |ids|
    requires forall k :: k in ids ==> k in YShares && YShares[k] == Eval(F, ScalarOf(k))
    requires forall i :: 0 <= i < |ids| ==> ResponseOk(zs[i], c, Lambda(Points(ids), i), YShares[ids[i]], rs[i])
    ensures ActOnBase(Sum(zs)) == Add(Act(c, Eval(F, 0)), Sum(rs))
  {
    hide Mul, Add, Eval, Lambda;
    var xs, n := Points(ids), |ids|;
    var ys := seq(n, i requires 0 <= i < n => Mul(Lambda(xs, i), Eval(F, xs[i])));
    var cys := seq(n, i requires 0 <= i < n => Mul(c, ys[i]));
    var zGs := seq(n, i requires 0 <= i < n => Mul(G, zs[i]));
    Reconstruct(xs, F, ys);
    SumScale(c, ys, cys);
    SumScale(G, zs, zGs);
    MulComm(G, Sum(zs));
    forall i | 0 <= i < n ensures zGs[i] == Add(cys[i], rs[i]) {
      assert ids[i] in ids;
      MulComm(G, zs[i]);
      assert ResponseOk(zs[i], c, Lambda(Points(ids), i), YShares[ids[i]], rs[i]);
    }
    SumAdd(cys, rs, zGs);
  }

  /** An honest response passes its check. */
  lemma HonestResponse(lambda: Scalar, s: Scalar, c: Scalar, d: Scalar, e: Scalar, rho: Scalar)
    ensures ResponseOk(Add(Add(Mul(Mul(lambda, s), c), d), Mul(rho, e)), c, lambda, ActOnBase(s),
                       Add(Act(rho, ActOnBase(e)), ActOnBase(d)))
  {
    hide Mul, Add;
    var a, b := Mul(Mul(lambda, s), c), Mul(rho, e);
    MulAdd(G, Add(a, d), b);
    MulAdd(G, a, d);
    MulAssoc(rho, e, G);
    MulAssoc(lambda, s, G);
    MulAssoc(Mul(lambda, s), c, G);
    MulSwap(Mul(lambda, s), c, G);
    Reorder(Mul(a, G), Mul(d, G), Mul(b, G));
  }

  lemma Reorder(a: Scalar, b: Scalar, c: Scalar)
    ensures Add(Add(a, b), c) == Add(a, Add(c, b))
  {
  }

  /** A share of R, negated when the BIP-340 adjustment applies. */
  function Signed(taproot: bool, R: Point, share: Point): (r: Point) {
    if taproot && !EvenY(R) then Neg(share) else share
  }

  function Only(id: ID, z: Scalar): (m: map<ID, Scalar>)
    ensures m.Keys == {id} && m[id] == z
  {
    map[id := z]
  }

  function ChallengeFor(taproot: bool, R: Point, Y: Point, M: Message): (c: Scalar) {
    if taproot then T.TaggedChallenge(X(R), X(Y), M) else Challenge(R, Y, M)
  }

  /** What round 2 computes from the nonce commitments of all signers. */
  datatype Challenged = Challenged(R: Point, RShares: map<ID, Point>, c: Scalar, lambda: map<ID, Scalar>)

  ghost predicate Committed(ids: seq<ID>, taproot: bool, M: Message, Y: Point, D: map<ID, Point>, E: map<ID, Point>,
                            ch: Challenged) {
    && D.Keys == E.Keys == ch.RShares.Keys == ch.lambda.Keys == IdSet(ids)
    && ch.R == Sum(RSharesOf(M, ids, D, E))
    && (forall k :: k in ids ==> ch.RShares[k] == Signed(taproot, ch.R, RShare(M, ids, D, E, k)))
    && ch.c == ChallengeFor(taproot, ch.R, Y, M)
    && forall i :: 0 <= i < |ids| ==> ch.lambda[ids[i]] == Lambda(Points(ids), i)
  }

  ghost function IndexOf(ids: seq<ID>, k: ID): (i: nat)
    requires k in ids
    ensures i < |ids| && ids[i] == k
  {
    var i :| 0 <= i < |ids| && ids[i] == k;
    i
  }

  ghost function LambdasOf(ids: seq<ID>): (r: map<ID, Scalar>)
    ensures r.Keys == IdSet(ids) && forall k :: k in ids ==> r[k] == Lambda(Points(ids), IndexOf(ids, k))
  {
    map k | k in IdSet(ids) :: Lambda(Points(ids), IndexOf(ids, k))
  }

  ghost function AdjustedShares(ids: seq<ID>, taproot: bool, M: Message, D: map<ID, Point>, E: map<ID, Point>, R: Point)
    : (r: map<ID, Point>)
    requires forall k :: k in ids ==> k in D && k in E
    ensures r.Keys == IdSet(ids) && forall k :: k in ids ==> r[k] == Signed(taproot, R, RShare(M, ids, D, E, k))
  {
    map k | k in IdSet(ids) :: Signed(taproot, R, RShare(M, ids, D, E, k))
  }

  /** What round 2 computes, as a function of the nonce commitments. */
  ghost function ChallengeIn(ids: seq<ID>, taproot: bool, M: Message, Y: Point, D: map<ID, Point>, E: map<ID, Point>)
    : (ch: Challenged)
    requires forall k :: k in ids ==> k in D && k in E
  {
    var R := Sum(RSharesOf(M, ids, D, E));
    Challenged(R, AdjustedShares(ids, taproot, M, D, E, R), ChallengeFor(taproot, R, Y, M), LambdasOf(ids))
  }

  lemma IndexUnique(ids: seq<ID>, i: nat)
    requires i < |ids| && forall i, j :: 0 <= i < j < |ids| ==> ids[i] != ids[j]
    ensures IndexOf(ids, ids[i]) == i
  {
    var j := IndexOf(ids, ids[i]);
  }

  /** The coefficients of the signers, by index and by name. */
  lemma LambdasAre(ids: seq<ID>, lambda: map<ID, Scalar>)
    requires lambda.Keys == IdSet(ids) && forall i, j :: 0 <= i < j < |ids| ==> ids[i] != ids[j]
    ensures (forall i :: 0 <= i < |ids| ==> lambda[ids[i]] == Lambda(Points(ids), i)) <==> lambda == LambdasOf(ids)
  {
    hide Lambda, LambdasOf, IndexOf;
    forall i | 0 <= i < |ids| ensures LambdasOf(ids)[ids[i]] == Lambda(Points(ids), i) {
      assert ids[i] in ids;
      IndexUnique(ids, i);
    }
    if forall i :: 0 <= i < |ids| ==> lambda[ids[i]] == Lambda(Points(ids), i) {
      forall k | k in ids ensures lambda[k] == LambdasOf(ids)[k] {
        var i :| 0 <= i < |ids| && ids[i] == k;
      }
    }
  }

  lemma SharesAre(ids: seq<ID>, taproot: bool, M: Message, D: map<ID, Point>, E: map<ID, Point>, R: Point,
                  shares: map<ID, Point>)
    requires shares.Keys == IdSet(ids) && forall k :: k in ids ==> k in D && k in E
    ensures (forall k :: k in ids ==> shares[k] == Signed(taproot, R, RShare(M, ids, D, E, k))) <==>
            shares == AdjustedShares(ids, taproot, M, D, E, R)
  {
    hide RShare, Signed, AdjustedShares;
  }

  lemma CommittedIs(ids: seq<ID>, taproot: bool, M: Message, Y: Point, D: map<ID, Point>, E: map<ID, Point>,
                    ch: Challenged)
    requires D.Keys == E.Keys == IdSet(ids) && forall i, j :: 0 <= i < j < |ids| ==> ids[i] != ids[j]
    ensures Committed(ids, taproot, M, Y, D, E, ch) <==> ch == ChallengeIn(ids, taproot, M, Y, D, E)
  {
    hide RShare, Lambda, ChallengeFor, Signed, IndexOf, LambdasOf, AdjustedShares, Sum, RSharesOf;
    if ch.RShares.Keys == IdSet(ids) && ch.lambda.Keys == IdSet(ids) {
      LambdasAre(ids, ch.lambda);
      SharesAre(ids, taproot, M, D, E, ch.R, ch.RShares);
    }
  }

  /** The response of a signer with nonces d and e. */
  ghost function OwnResponse(self: ID, ids: seq<ID>, taproot: bool, M: Message, s: Scalar, d: Scalar, e: Scalar,
                             D: map<ID, Point>, E: map<ID, Point>, ch: Challenged): Scalar
    requires self in ids && self in ch.lambda && forall k :: k in ids ==> k in D && k in E
  {
    Response(ch, self, s, Signed(taproot, ch.R, d), Signed(taproot, ch.R, e), Rho(M, Bundle(ids, D, E), self))
  }

  /** What the rounds know from their peers; the rest is fixed when the session starts. */
  datatype Round = Round1 | Round2 | Round3(D: map<ID, Point>, E: map<ID, Point>, ch: Challenged, z: Scalar)

  /** Every stored response passed its check. */
  ghost predicate Passed(ids: seq<ID>, YShares: map<ID, Point>, ch: Challenged, z: map<ID, Scalar>) {
    && (forall k :: k in ids ==> k in ch.lambda && k in ch.RShares && k in YShares)
    && z.Keys <= IdSet(ids)
    && forall k :: k in z ==> ResponseOk(z[k], ch.c, ch.lambda[k], YShares[k], ch.RShares[k])
  }

  /** The BIP-340 adjustment of round 2: our nonces and all shares of R change sign together. */
  method Adjust(taproot: bool, R: Point, d0: Scalar, e0: Scalar, shares: map<ID, Point>)
    returns (d: Scalar, e: Scalar, r: map<ID, Point>)
    ensures d == Signed(taproot, R, d0) && e == Signed(taproot, R, e0)
    ensures r.Keys == shares.Keys && forall k :: k in shares ==> r[k] == Signed(taproot, R, shares[k])
  {
    hide Neg;
    d, e, r := d0, e0, shares;
    if taproot && !EvenY(R) {
      d, e := Neg(d), Neg(e);
      r := map k | k in shares :: Neg(shares[k]);
    }
  }

  /** Round 2 up to the challenge; our own share of R is the commitment to our adjusted nonces. */
  method Prepare(
      self: ID, ids: seq<ID>, taproot: bool, M: Message, Y: Point, d0: Scalar, e0: Scalar,
      D: map<ID, Point>, E: map<ID, Point>)
    returns (ch: Challenged, d: Scalar, e: Scalar, rho: Scalar)
    requires GoodIDs(ids) && self in ids && D.Keys == E.Keys == IdSet(ids)
    requires D[self] == ActOnBase(d0) && E[self] == ActOnBase(e0)
    ensures Committed(ids, taproot, M, Y, D, E, ch)
    ensures forall k :: k in ids ==> k in ch.lambda && k in ch.RShares
    ensures ch.RShares[self] == Add(Act(rho, ActOnBase(e)), ActOnBase(d))
    ensures d == Signed(taproot, ch.R, d0) && e == Signed(taproot, ch.R, e0) && rho == Rho(M, Bundle(ids, D, E), self)
  {
    hide Mul, Add, Lambda, Neg, Signed, Bundle, ChallengeFor;
    var R, plain, rhos := GroupCommitment(M, ids, D, E);
    var RShares;
    d, e, RShares := Adjust(taproot, R, d0, e0, plain);
    rho := rhos[self];
    OwnShare(taproot, R, rho, d0, e0);
    assert RShares[self] == Add(Act(rho, ActOnBase(e)), ActOnBase(d));
    hide RShare;
    var lambda := LagrangeCoefficients(ids);
    ch := Challenged(R, RShares, ChallengeFor(taproot, R, Y, M), lambda);
  }

  /** The response of one signer. */
  function Response(ch: Challenged, self: ID, s: Scalar, d: Scalar, e: Scalar, rho: Scalar): (z: Scalar)
    requires self in ch.lambda
  {
    Add(Add(Mul(Mul(ch.lambda[self], s), ch.c), d), Mul(rho, e))
  }

  lemma OwnResponsePasses(
      self: ID, ids: seq<ID>, YShares: map<ID, Point>, s: Scalar, d: Scalar, e: Scalar, rho: Scalar, ch: Challenged)
    requires self in ids && forall k :: k in ids ==> k in ch.lambda && k in ch.RShares && k in YShares
    requires YShares[self] == ActOnBase(s) && ch.RShares[self] == Add(Act(rho, ActOnBase(e)), ActOnBase(d))
    ensures Passed(ids, YShares, ch, Only(self, Response(ch, self, s, d, e, rho)))
  {
    hide Mul, Add, ResponseOk;
    HonestResponse(ch.lambda[self], s, ch.c, d, e, rho);
  }

  method Respond(
      self: ID, ids: seq<ID>, taproot: bool, M: Message, Y: Point, YShares: map<ID, Point>, s: Scalar,
      d0: Scalar, e0: Scalar, D: map<ID, Point>, E: map<ID, Point>)
    returns (ch: Challenged, d: Scalar, e: Scalar, zs: map<ID, Scalar>)
    requires GoodIDs(ids) && self in ids && D.Keys == E.Keys == IdSet(ids)
    requires D[self] == ActOnBase(d0) && E[self] == ActOnBase(e0)
    requires (forall k :: k in ids ==> k in YShares) && YShares[self] == ActOnBase(s)
    ensures Committed(ids, taproot, M, Y, D, E, ch) && ch == ChallengeIn(ids, taproot, M, Y, D, E) && self in ch.lambda
    ensures d == Signed(taproot, ch.R, d0) && e == Signed(taproot, ch.R, e0)
    ensures Passed(ids, YShares, ch, zs) && zs == Only(self, OwnResponse(self, ids, taproot, M, s, d0, e0, D, E, ch))
  {
    assert forall i, j :: 0 <= i < j < |ids| ==> ids[i] != ids[j];
    hide Mul, Add, Passed, Response, Committed, GoodIDs, ChallengeIn, Signed, Bundle;
    var rho;
    ch, d, e, rho := Prepare(self, ids, taproot, M, Y, d0, e0, D, E);
    CommittedIs(ids, taproot, M, Y, D, E, ch);
    OwnResponsePasses(self, ids, YShares, s, d, e, rho, ch);
    zs := Only(self, Response(ch, self, s, d, e, rho));
  }

  // -------------------------------------------------------------------- one signer

  class Signer {
    const self: ID
    const ids: seq<ID>
    const taproot: bool
    const M: Message
    const Y: Point
    const YShares: map<ID, Point>
    const s: Scalar
    /** The polynomial behind the key. */
    ghost const F: seq<Point>

    var d: Scalar
    var e: Scalar
    var D: map<ID, Point>
    var E: map<ID, Point>
    var ch: Challenged
    var z: map<ID, Scalar>

    ghost predicate Valid()
      reads this
    {
      && GoodKey(self, ids, Y, YShares, s, F)
      && (taproot ==> Y != 0 && EvenY(Y))
    }

    ghost predicate ValidNonces()
      reads this
    {
      && Valid()
      && D.Keys == E.Keys <= IdSet(ids)
      && self in D && D[self] == ActOnBase(d) && E[self] == ActOnBase(e)
      && forall k :: k in D ==> D[k] != 0 && E[k] != 0
    }

    ghost predicate ValidResponses()
      reads this
    {
      Valid() && Committed(ids, taproot, M, Y, D, E, ch) && Passed(ids, YShares, ch, z)
    }

    constructor (self: ID, ids: seq<ID>, taproot: bool, M: Message, Y: Point, YShares: map<ID, Point>, s: Scalar,
                 ghost F: seq<Point>)
      requires GoodKey(self, ids, Y, YShares, s, F) && (taproot ==> Y != 0 && EvenY(Y))
      ensures Valid() && this.self == self && this.ids == ids && this.taproot == taproot && this.M == M
      ensures this.Y == Y && this.YShares == YShares && this.s == s && this.F == F
    {
      this.self, this.ids, this.taproot, this.M, this.Y := self, ids, taproot, M, Y;
      this.YShares, this.s, this.F := YShares, s, F;
      d, e, D, E, ch, z := 0, 0, map[], map[], Challenged(0, map[], 0, map[]), map[];
    }

    /** Round 1: commit to two unit nonces. */
    method Finalize1(d: Scalar, e: Scalar)
      requires Valid() && d != 0 && e != 0
      modifies this`d, this`e, this`D, this`E
      ensures ValidNonces() && D.Keys == {self} && this.d == d && this.e == e
    {
      T.BaseNonzero(d);
      T.BaseNonzero(e);
      this.d, this.e := d, e;
      D, E := map[self := ActOnBase(d)], map[self := ActOnBase(e)];
    }

    /** Round 2, on receipt of nonce commitments: identity points are refused. */
    method StoreBroadcast2(from: ID, Dl: Point, El: Point) returns (ok: bool)
      requires ValidNonces() && from in ids && from != self
      modifies this`D, this`E
      ensures ValidNonces() && (ok <==> Dl != 0 && El != 0)
      ensures D == if ok then old(D)[from := Dl] else old(D)
      ensures E == if ok then old(E)[from := El] else old(E)
    {
      if Dl == 0 || El == 0 {
        return false;
      }
      D, E := D[from := Dl], E[from := El];
      return true;
    }

    /** Round 2: the group commitment, the challenge and our own response. */
    method Finalize2()
      requires ValidNonces() && D.Keys == IdSet(ids)
      modifies this`d, this`e, this`ch, this`z
      ensures ValidResponses() && ch == ChallengeIn(ids, taproot, M, Y, D, E) && self in ch.lambda
      ensures z == map[self := OwnResponse(self, ids, taproot, M, s, old(d), old(e), D, E, ch)]
    {
      hide Mul, Add, Eval, Committed, Passed, ChallengeIn, OwnResponse, Signed, GoodIDs;
      ch, d, e, z := Respond(self, ids, taproot, M, Y, YShares, s, d, e, D, E);
    }

    /** Round 3, on receipt of a response. */
    method StoreBroadcast3(from: ID, zl: Scalar) returns (ok: bool)
      requires ValidResponses() && from in ids
      modifies this`z
      ensures ValidResponses() && (ok <==> ResponseOk(zl, ch.c, ch.lambda[from], YShares[from], ch.RShares[from]))
      ensures z == if ok then old(z)[from := zl] else old(z)
    {
      hide GoodKey, Committed, Mul, Add;
      var expected := Add(Act(ch.c, Act(ch.lambda[from], YShares[from])), ch.RShares[from]);
      var actual := ActOnBase(zl);
      if actual != expected {
        return false;
      }
      z := z[from := zl];
      return true;
    }

    /** Round 3: the aggregate verifies, unless Taproot meets a group commitment that is the identity. */
    method Finalize3() returns (r: SignResult)
      requires ValidResponses() && z.Keys == IdSet(ids)
      ensures r == SignatureOf(taproot, M, Y, ch.R, Add(0, Sum(Lookup(z, ids))))
      ensures r.Abort? <==> taproot && ch.R == 0
      ensures r.PlainSignature? ==> r.sig.R == ch.R && Verify(r.sig, Y, M)
      ensures r.TaprootSignature? ==> r.tsig.r == X(ch.R) && T.Verify(X(Y), r.tsig, M)
    {
      hide GoodKey, Committed, Passed, Mul, Add, T.Verify;
      var sum := SumShares(0, z, ids);
      ResultVerifies(self, ids, taproot, M, Y, YShares, s, F, D, E, ch, z);
      if taproot {
        var sig := T.Signature(X(ch.R), sum);
        if !T.Verify(X(Y), sig, M) {
          return Abort("generated signature failed to verify");
        }
        return TaprootSignature(sig);
      } else {
        var sig := Signature(ch.R, sum);
        if !Verify(sig, Y, M) {
          return Abort("generated signature failed to verify");
        }
        return PlainSignature(sig);
      }
    }
  }

  /** What round 3 returns for the response z of the group. */
  function SignatureOf(taproot: bool, M: Message, Y: Point, R: Point, z: Scalar): (r: SignResult) {
    if taproot then
      if T.Verify(X(Y), T.Signature(X(R), z), M) then TaprootSignature(T.Signature(X(R), z))
      else Abort("generated signature failed to verify")
    else
      if Verify(Signature(R, z), Y, M) then PlainSignature(Signature(R, z))
      else Abort("generated signature failed to verify")
  }

  /** Once all responses have passed, the result is a signature exactly when there is one to be made. */
  lemma ResultVerifies(
      self: ID, ids: seq<ID>, taproot: bool, M: Message, Y: Point, YShares: map<ID, Point>, s: Scalar, F: seq<Point>,
      D: map<ID, Point>, E: map<ID, Point>, ch: Challenged, z: map<ID, Scalar>)
    requires GoodKey(self, ids, Y, YShares, s, F) && (taproot ==> Y != 0 && EvenY(Y))
    requires Committed(ids, taproot, M, Y, D, E, ch) && Passed(ids, YShares, ch, z) && z.Keys == IdSet(ids)
    ensures SignatureOf(taproot, M, Y, ch.R, Add(0, Sum(Lookup(z, ids)))).Abort? <==> taproot && ch.R == 0
  {
    hide GoodKey, Committed, Passed, Mul, Add, Sub, LiftX;
    if !(taproot && ch.R == 0) {
      AggregateVerifies(self, ids, taproot, M, Y, YShares, s, F, D, E, ch, z);
    }
  }

  lemma OwnShare(taproot: bool, R: Point, rho: Scalar, d: Scalar, e: Scalar)
    ensures Signed(taproot, R, Add(Act(rho, ActOnBase(e)), ActOnBase(d))) ==
            Add(Act(rho, ActOnBase(Signed(taproot, R, e))), ActOnBase(Signed(taproot, R, d)))
  {
    hide Mul;
    MulNeg(G, e);
    MulNeg(G, d);
    MulNeg(rho, ActOnBase(e));
    NegAdd(Act(rho, ActOnBase(e)), ActOnBase(d));
  }

  /** The shares of R, adjusted or not, add up to the point that has to be matched. */
  lemma AdjustedSum(ids: seq<ID>, taproot: bool, M: Message, Y: Point, D: map<ID, Point>, E: map<ID, Point>,
                    ch: Challenged)
    requires Committed(ids, taproot, M, Y, D, E, ch)
    ensures Sum(Lookup(ch.RShares, ids)) == Signed(taproot, ch.R, ch.R)
  {
    hide RShare, Neg, Add;
    var rs, all := Lookup(ch.RShares, ids), RSharesOf(M, ids, D, E);
    if taproot && !EvenY(ch.R) {
      SumNeg(all, rs);
    } else {
      assert rs == all;
    }
  }

  lemma AggregateVerifies(
      self: ID, ids: seq<ID>, taproot: bool, M: Message, Y: Point, YShares: map<ID, Point>, s: Scalar, F: seq<Point>,
      D: map<ID, Point>, E: map<ID, Point>, ch: Challenged, z: map<ID, Scalar>)
    requires GoodKey(self, ids, Y, YShares, s, F) && (taproot ==> Y != 0 && EvenY(Y) && ch.R != 0)
    requires Committed(ids, taproot, M, Y, D, E, ch) && Passed(ids, YShares, ch, z) && z.Keys == IdSet(ids)
    ensures !taproot ==> Verify(Signature(ch.R, Add(0, Sum(Lookup(z, ids)))), Y, M)
    ensures taproot ==> T.Verify(X(Y), T.Signature(X(ch.R), Add(0, Sum(Lookup(z, ids)))), M)
  {
    AdjustedSum(ids, taproot, M, Y, D, E, ch);
    AllPassed(ids, taproot, M, Y, YShares, D, E, ch, z);
    Aggregate(ids, F, YShares, Lookup(ch.RShares, ids), Lookup(z, ids), ch.c);
    hide Mul, Add, Neg, Eval, RShare, Lambda;
    var R := Signed(taproot, ch.R, ch.R);
    AddZero(Sum(Lookup(z, ids)));
    AddComm(Act(ch.c, Y), R);
    if taproot {
      NegNonzero(ch.R);
      VerifyTaproot(Y, R, Sum(Lookup(z, ids)), M, X(ch.R));
    }
  }

  lemma AllPassed(
      ids: seq<ID>, taproot: bool, M: Message, Y: Point, YShares: map<ID, Point>, D: map<ID, Point>, E: map<ID, Point>,
      ch: Challenged, z: map<ID, Scalar>)
    requires Committed(ids, taproot, M, Y, D, E, ch) && Passed(ids, YShares, ch, z) && z.Keys == IdSet(ids)
    ensures forall i :: 0 <= i < |ids| ==>
              ResponseOk(Lookup(z, ids)[i], ch.c, Lambda(Points(ids), i), YShares[ids[i]], Lookup(ch.RShares, ids)[i])
  {
    hide ResponseOk, RShare, Lambda;
  }

  lemma VerifyTaproot(Y: Point, R: Point, z: Scalar, M: Message, x: XBytes)
    requires Y != 0 && EvenY(Y) && R != 0 && EvenY(R) && x == X(R)
    requires ActOnBase(z) == Add(R, Act(T.TaggedChallenge(x, X(Y), M), Y))
    ensures T.Verify(X(Y), T.Signature(x, z), M)
  {
    T.VerifyFromEquation(Y, R, z, M);
  }

  lemma AddZero(a: Scalar)
    ensures Add(0, a) == a && Add(a, 0) == a
  {
  }

  lemma AddComm(a: Scalar, b: Scalar)
    ensures Add(a, b) == Add(b, a)
  {
  }

  lemma NegNonzero(p: Point)
    requires p != 0
    ensures Neg(p) != 0 && X(Neg(p)) == X(p) && EvenY(Neg(p)) == !EvenY(p)
  {
  }
}
