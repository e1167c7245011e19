/** Key derivation, and what any sequence of refreshes and derivations does to a shared key. */
module KeyLifecycle {
  import opened Zq
  import opened Polynomials
  import opened Party
  import opened Exponents
  import opened Curve
  import opened FrostKeygen

  /** The polynomial with a constant added. */
  ghost function Shift(F: seq<Point>, k: Point): (r: seq<Point>)
    requires |F| > 0
  {
    F[0 := Add(F[0], k)]
  }

  lemma ShiftValue(F: seq<Point>, k: Point, x: Scalar)
    requires |F| > 0
    ensures Eval(Shift(F, k), x) == Add(Eval(F, x), k)
  {
    hide Mul;
    assert Shift(F, k)[1..] == F[1..];
    AddShuffle(F[0], k, Mul(x, Eval(F[1..], x)));
  }

  lemma AddShuffle(a: Scalar, k: Scalar, b: Scalar)
    ensures Add(Add(a, k), b) == Add(Add(a, b), k)
  {
  }

  lemma ShiftHolds(
      id: ID, t: nat, share: Scalar, pk: Point, vs: map<ID, Point>, ids: seq<ID>, F: seq<Point>,
      adjust: Scalar, vs': map<ID, Point>)
    requires Holds(id, t, share, pk, vs, ids, F)
    requires vs'.Keys == vs.Keys && forall k :: k in vs ==> vs'[k] == Add(vs[k], ActOnBase(adjust))
    ensures Holds(id, t, Add(share, adjust), Add(pk, ActOnBase(adjust)), vs', ids, Shift(F, ActOnBase(adjust)))
  {
    hide Mul, Add, Eval;
    var k := ActOnBase(adjust);
    ShiftValue(F, k, 0);
    ShiftValue(F, k, ScalarOf(id));
    MulAdd(G, share, adjust);
    forall j | j in ids ensures vs'[j] == Eval(Shift(F, k), ScalarOf(j)) {
      ShiftValue(F, k, ScalarOf(j));
    }
  }

  method AddToAll(vs: map<ID, Point>, k: Point) returns (r: map<ID, Point>)
    ensures r.Keys == vs.Keys && forall j :: j in vs ==> r[j] == Add(vs[j], k)
  {
    r := map[];
    var rest := vs.Keys;
    while rest != {}
      invariant rest <= vs.Keys && r.Keys == vs.Keys - rest
      invariant forall j :: j in r ==> r[j] == Add(vs[j], k)
    {
      var j :| j in rest;
      r := r[j := Add(vs[j], k)];
      rest := rest - {j};
    }
  }

  /** The chain key a derivation ends up with, or the error for one of the wrong length. */
  function NextChainKey(current: seq<Byte>, replacement: seq<Byte>): (r: Result<seq<Byte>>)
    ensures r.Ok? <==> (|replacement| == SEC_BYTES || (|replacement| == 0 && |current| == SEC_BYTES))
    ensures r.Ok? ==> |r.value| == SEC_BYTES && r.value == if replacement != [] then replacement else current
  {
    var k := if |replacement| <= 0 then current else replacement;
    if |k| != SEC_BYTES then Err("wrong chain key length") else Ok(k)
  }

  ghost predicate AllShifted(vs: map<ID, Point>, vs': map<ID, Point>, k: Point) {
    vs'.Keys == vs.Keys && forall j :: j in vs ==> vs'[j] == Add(vs[j], k)
  }

  /** d is c with every share moved by the adjustment. */
  ghost predicate Derived(c: Config, d: Config, adjust: Scalar) {
    && d.id == c.id && d.threshold == c.threshold
    && d.privateShare == Add(c.privateShare, adjust)
    && d.publicKey == Add(c.publicKey, ActOnBase(adjust))
    && AllShifted(c.verificationShares, d.verificationShares, ActOnBase(adjust))
  }

  /** Config.Derive: every share moves by the adjustment, the public key by its multiple of G. */
  method Derive(c: Config, adjust: Scalar, newChainKey: seq<Byte>) returns (r: Result<Config>)
    ensures r.Ok? <==> |newChainKey| == 32 || (newChainKey == [] && |c.chainKey| == 32)
    ensures r.Ok? ==> Derived(c, r.value, adjust)
    ensures r.Ok? ==> r.value.chainKey == if newChainKey != [] then newChainKey else c.chainKey
  {
    hide Mul, Add;
    var chainKey := NextChainKey(c.chainKey, newChainKey);
    if chainKey.Err? {
      return Err(chainKey.error);
    }
    var adjustG := ActOnBase(adjust);
    var vs := AddToAll(c.verificationShares, adjustG);
    return Ok(Config(c.id, c.threshold, Add(c.privateShare, adjust), Add(c.publicKey, adjustG), chainKey.value, vs));
  }

  /** The point or its opposite, whichever has an even y coordinate. */
  function WithEvenY(p: Point): (r: Point) {
    if EvenY(p) then p else Neg(p)
  }

  /** d is c moved by the adjustment, and negated as a whole when the new key has an odd y. */
  ghost predicate DerivedTaproot(c: TaprootConfig, d: TaprootConfig, adjust: Scalar) {
    && d.id == c.id && d.threshold == c.threshold && LiftX(c.publicKey).Some?
    && var pk := Add(LiftX(c.publicKey).value, ActOnBase(adjust));
       && d.publicKey == X(pk)
       && exists vs :: AllShifted(c.verificationShares, vs, ActOnBase(adjust)) &&
                       if EvenY(pk) then
                         d.privateShare == Add(c.privateShare, adjust) && d.verificationShares == vs
                       else
                         && d.privateShare == Neg(Add(c.privateShare, adjust))
                         && d.verificationShares == map k | k in vs :: Neg(vs[k])
  }

  /** TaprootConfig.Derive: the same, with everything negated when the new key has an odd y. */
  method DeriveTaproot(c: TaprootConfig, adjust: Scalar, newChainKey: seq<Byte>) returns (r: Result<TaprootConfig>)
    ensures r.Ok? <==>
            (|newChainKey| == 32 || (newChainKey == [] && |c.chainKey| == 32)) && LiftX(c.publicKey).Some?
    ensures r.Ok? ==> DerivedTaproot(c, r.value, adjust)
    ensures r.Ok? ==> r.value.chainKey == if newChainKey != [] then newChainKey else c.chainKey
  {
    hide Mul, Add, Neg;
    var chainKey := NextChainKey(c.chainKey, newChainKey);
    if chainKey.Err? {
      return Err(chainKey.error);
    }
    var adjustG := ActOnBase(adjust);
    var vs := AddToAll(c.verificationShares, adjustG);
    var share := Add(c.privateShare, adjust);
    var lifted := LiftX(c.publicKey);
    if lifted.None? {
      return Err("x coordinate not on curve");
    }
    ghost var shifted := vs;
    var publicKey := Add(lifted.value, adjustG);
    if !EvenY(publicKey) {
      share := Neg(share);
      vs := map k | k in vs :: Neg(vs[k]);
    }
    assert AllShifted(c.verificationShares, shifted, adjustG);
    return Ok(TaprootConfig(c.id, c.threshold, share, X(publicKey), chainKey.value, vs));
  }

  lemma DerivedTaprootHolds(c: TaprootConfig, d: TaprootConfig, adjust: Scalar, ids: seq<ID>, F: seq<Point>)
    requires TaprootConsistent(c, ids, F) && DerivedTaproot(c, d, adjust)
    requires Add(Eval(F, 0), ActOnBase(adjust)) != 0
    ensures TaprootConsistent(d, ids, Evened(Shift(F, ActOnBase(adjust))))
    ensures LiftX(d.publicKey) == Some(WithEvenY(Add(Eval(F, 0), ActOnBase(adjust))))
  {
    hide Mul, Add, Eval, Neg;
    var k := ActOnBase(adjust);
    var pk := Add(Eval(F, 0), k);
    var vs :| AllShifted(c.verificationShares, vs, k) &&
              if EvenY(pk) then
                d.privateShare == Add(c.privateShare, adjust) && d.verificationShares == vs
              else
                && d.privateShare == Neg(Add(c.privateShare, adjust))
                && d.verificationShares == map j | j in vs :: Neg(vs[j]);
    ShiftHolds(c.id, c.threshold, c.privateShare, Eval(F, 0), c.verificationShares, ids, F, adjust, vs);
    LiftXOfPoint(pk);
    if !EvenY(pk) {
      NegatedHolds(c.id, c.threshold, Add(c.privateShare, adjust), pk, vs, ids, Shift(F, k));
    }
  }

  // ------------------------------------------------------------------- lifecycle

  /** One step in the life of a key that all parties take together. */
  datatype Step = Derivation(adjust: Scalar) | Refreshing(phi: map<ID, Exponent>)

  ghost predicate StepAllowed(s: Step, ids: seq<ID>, F: seq<Point>) {
    match s
    case Derivation(_) => true
    case Refreshing(phi) => OneLength(phi, ids, F) && forall k :: k in ids ==> WellFormed(phi[k]) && Constant(phi[k]) == 0
  }

  /** The polynomial after one step: it does not depend on the party. */
  ghost function After(s: Step, ids: seq<ID>, F: seq<Point>): (r: seq<Point>)
    requires |F| > 0 && StepAllowed(s, ids, F)
    ensures |r| == |F|
  {
    match s
    case Derivation(a) => Shift(F, ActOnBase(a))
    case Refreshing(phi) => Outcome(phi, ids, F)
  }

  /** What one party holds after one step, as Derive and Finalize3 guarantee it. */
  ghost predicate Moves(s: Step, ids: seq<ID>, F: seq<Point>, c: Config, d: Config)
    requires |F| > 0 && StepAllowed(s, ids, F)
  {
    match s
    case Derivation(a) => Derived(c, d, a)
    case Refreshing(phi) => Finished(Plain(d), c.id, c.threshold, false, ids, Outcome(phi, ids, F))
  }

  /** Polynomials along a run: each step is allowed and leads to the next polynomial. */
  ghost predicate PolynomialRun(steps: seq<Step>, ids: seq<ID>, Fs: seq<seq<Point>>) {
    && |Fs| == |steps| + 1
    && (forall i :: 0 <= i < |Fs| ==> |Fs[i]| > 0)
    && forall i :: 0 <= i < |steps| ==> StepAllowed(steps[i], ids, Fs[i]) && Fs[i + 1] == After(steps[i], ids, Fs[i])
  }

  ghost predicate PartyRun(steps: seq<Step>, ids: seq<ID>, Fs: seq<seq<Point>>, cs: seq<Config>)
    requires PolynomialRun(steps, ids, Fs)
  {
    |cs| == |Fs| && forall i :: 0 <= i < |steps| ==> Moves(steps[i], ids, Fs[i], cs[i], cs[i + 1])
  }

  /** The total of all derivation adjustments. */
  function Adjustments(steps: seq<Step>): (a: Scalar) {
    if |steps| == 0 then 0
    else
      var before := Adjustments(steps[..|steps| - 1]);
      match steps[|steps| - 1]
      case Derivation(a) => Add(before, a)
      case Refreshing(_) => before
  }

  lemma StepKeepsConsistency(s: Step, ids: seq<ID>, F: seq<Point>, c: Config, d: Config)
    requires Consistent(c, ids, F) && StepAllowed(s, ids, F) && Moves(s, ids, F, c, d)
    ensures Consistent(d, ids, After(s, ids, F))
  {
    hide Mul, Add, Eval;
    match s
    case Derivation(a) =>
      ShiftHolds(c.id, c.threshold, c.privateShare, c.publicKey, c.verificationShares, ids, F, a, d.verificationShares);
    case Refreshing(_) =>
  }

  lemma StepMovesSecret(s: Step, ids: seq<ID>, F: seq<Point>)
    requires |F| > 0 && StepAllowed(s, ids, F)
    ensures Eval(After(s, ids, F), 0) == if s.Derivation? then Add(Eval(F, 0), ActOnBase(s.adjust)) else Eval(F, 0)
  {
    match s
    case Derivation(a) => ShiftValue(F, ActOnBase(a), 0);
    case Refreshing(phi) => RefreshKeepsPublicKey(phi, ids, F);
  }

  /**
    Starting from a consistent configuration, after any sequence of refreshes and derivations the
    party is behind the common polynomial of the same degree, and its public key has moved by
    exactly the sum of the adjustments.
   */
  lemma {:induction false} Lifecycle(steps: seq<Step>, ids: seq<ID>, Fs: seq<seq<Point>>, cs: seq<Config>)
    requires PolynomialRun(steps, ids, Fs) && PartyRun(steps, ids, Fs, cs)
    requires Consistent(cs[0], ids, Fs[0])
    ensures Consistent(cs[|steps|], ids, Fs[|steps|]) && |Fs[|steps|]| == |Fs[0]|
    ensures cs[|steps|].id == cs[0].id && cs[|steps|].threshold == cs[0].threshold
    ensures cs[|steps|].publicKey == Add(cs[0].publicKey, ActOnBase(Adjustments(steps)))
  {
    hide Mul, Eval;
    if |steps| == 0 {
      MulZero(G);
    } else {
      var n := |steps| - 1;
      var s := steps[n];
      Lifecycle(steps[..n], ids, Fs[..n + 1], cs[..n + 1]);
      StepKeepsConsistency(s, ids, Fs[n], cs[n], cs[n + 1]);
      StepMovesSecret(s, ids, Fs[n]);
      if s.Derivation? {
        MulAdd(G, Adjustments(steps[..n]), s.adjust);
        AddAssoc(cs[0].publicKey, ActOnBase(Adjustments(steps[..n])), ActOnBase(s.adjust));
      }
    }
  }

  // ----------------------------------------------------------- Taproot lifecycle

  ghost predicate TaprootMoves(s: Step, ids: seq<ID>, F: seq<Point>, c: TaprootConfig, d: TaprootConfig)
    requires |F| > 0 && StepAllowed(s, ids, F)
  {
    match s
    case Derivation(a) => DerivedTaproot(c, d, a)
    case Refreshing(phi) => Finished(Taproot(d), c.id, c.threshold, true, ids, Outcome(phi, ids, F))
  }

  /** The public key after the steps: refreshes keep it, derivations move it up to the sign. */
  function KeyAfter(steps: seq<Step>, pk: Point): (r: Point) {
    if |steps| == 0 then pk
    else
      var before := KeyAfter(steps[..|steps| - 1], pk);
      match steps[|steps| - 1]
      case Derivation(a) => WithEvenY(Add(before, ActOnBase(a)))
      case Refreshing(_) => before
  }

  ghost predicate TaprootRun(steps: seq<Step>, ids: seq<ID>, Fs: seq<seq<Point>>, cs: seq<TaprootConfig>) {
    && |cs| == |Fs| == |steps| + 1
    && (forall i :: 0 <= i < |Fs| ==> |Fs[i]| > 0)
    && forall i :: 0 <= i < |steps| ==>
           && StepAllowed(steps[i], ids, Fs[i])
           && Eval(After(steps[i], ids, Fs[i]), 0) != 0
           && Fs[i + 1] == Evened(After(steps[i], ids, Fs[i]))
           && TaprootMoves(steps[i], ids, Fs[i], cs[i], cs[i + 1])
  }

  lemma TaprootStep(s: Step, ids: seq<ID>, F: seq<Point>, c: TaprootConfig, d: TaprootConfig)
    requires TaprootConsistent(c, ids, F) && StepAllowed(s, ids, F) && TaprootMoves(s, ids, F, c, d)
    requires Eval(After(s, ids, F), 0) != 0
    ensures TaprootConsistent(d, ids, Evened(After(s, ids, F))) && d.id == c.id && d.threshold == c.threshold
    ensures LiftX(d.publicKey) ==
            Some(if s.Derivation? then WithEvenY(Add(Eval(F, 0), ActOnBase(s.adjust))) else Eval(F, 0))
  {
    hide Mul, Add, Neg, Eval;
    StepMovesSecret(s, ids, F);
    match s
    case Derivation(a) => DerivedTaprootHolds(c, d, a, ids, F);
    case Refreshing(_) => LiftXOfPoint(Eval(F, 0));
  }

  /** The same with Taproot keys, as long as no step makes the key the identity. */
  lemma {:induction false} TaprootLifecycle(steps: seq<Step>, ids: seq<ID>, Fs: seq<seq<Point>>, cs: seq<TaprootConfig>)
    requires TaprootRun(steps, ids, Fs, cs) && TaprootConsistent(cs[0], ids, Fs[0])
    ensures TaprootConsistent(cs[|steps|], ids, Fs[|steps|]) && |Fs[|steps|]| == |Fs[0]|
    ensures cs[|steps|].id == cs[0].id && cs[|steps|].threshold == cs[0].threshold
    ensures LiftX(cs[|steps|].publicKey) == Some(KeyAfter(steps, Eval(Fs[0], 0)))
  {
    hide Mul, Add, Neg, Eval, LiftX, TaprootConsistent, TaprootMoves, StepAllowed, After, Evened, WithEvenY;
    if |steps| == 0 {
      LiftedKey(cs[0], ids, Fs[0]);
    } else {
      var n := |steps| - 1;
      TaprootLifecycle(steps[..n], ids, Fs[..n + 1], cs[..n + 1]);
      LiftedKey(cs[n], ids, Fs[n]);
      TaprootStep(steps[n], ids, Fs[n], cs[n], cs[n + 1]);
      EvenedLength(After(steps[n], ids, Fs[n]));
    }
  }

  lemma LiftedKey(c: TaprootConfig, ids: seq<ID>, F: seq<Point>)
    requires TaprootConsistent(c, ids, F)
    ensures LiftX(c.publicKey) == Some(Eval(F, 0))
  {
  }

  lemma EvenedLength(F: seq<Point>)
    ensures |Evened(F)| == |F|
  {
  }
}
