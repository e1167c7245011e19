/** Multiplication by oblivious transfer: additive shares of alpha * beta from a gadget encoding of beta. */
module Multiplication {
  import opened Zq
  import opened Party
  import opened Bits
  import opened Encoding
  import opened CorrelatedOT
  import ExtendedOT
  import opened AdditiveOT

  const SCALAR_BITS := 256
  const NOISE_BYTES := 52
  const GADGET_LEN := 8 * (SCALAR_BYTES + NOISE_BYTES)

  /** The public noise of the gadget, and the two check weights, sampled from the hash. */
  const NoiseOf: (Context, nat) -> Scalar
  const ChiScalar: (Context, nat) -> Scalar

  /** The gadget: the weights of the bits of a scalar, then noise. */
  ghost function GadgetAt(context: Context, i: nat): Scalar {
    if i < SCALAR_BITS then Red(Pow2(BitWeight(SCALAR_BYTES, i))) else NoiseOf(context, i - SCALAR_BITS)
  }

  ghost function Gadget(context: Context): (g: seq<Scalar>)
    ensures |g| == GADGET_LEN
  {
    seq(GADGET_LEN, i requires 0 <= i < GADGET_LEN => GadgetAt(context, i))
  }

  lemma Doubling(k: nat)
    ensures Add(Red(Pow2(k)), Red(Pow2(k))) == Red(Pow2(k + 1))
  {
    hide Add, Red;
    RedAdd(Pow2(k), Pow2(k));
  }

  lemma WeightAt(i: nat, j: nat)
    requires i < SCALAR_BYTES && j < 8
    ensures 8 * i + j < 8 * SCALAR_BYTES && BitWeight(SCALAR_BYTES, 8 * i + j) == 8 * (SCALAR_BYTES - 1 - i) + j
  {
  }

  /** makeGadget: powers of two written from the last byte to the first. */
  method MakeGadget(context: Context) returns (out: seq<Scalar>)
    ensures out == Gadget(context)
    ensures forall i :: SCALAR_BITS <= i < GADGET_LEN ==> out[i] == NoiseOf(context, i - SCALAR_BITS)
  {
    hide Pow2, BitWeight, Red, Add;
    out := seq(GADGET_LEN, i => 0);
    var acc: Scalar := 1;
    assert Red(Pow2(0)) == 1 by {
      assert Pow2(0) == 1 by { Pow2Zero(); }
      RedSmall(1);
    }
    var i := SCALAR_BYTES;
    while i > 0
      invariant 0 <= i <= SCALAR_BYTES && |out| == GADGET_LEN
      invariant acc == Red(Pow2(8 * (SCALAR_BYTES - i)))
      invariant forall k :: 8 * i <= k < SCALAR_BITS ==> out[k] == GadgetAt(context, k)
    {
      i := i - 1;
      out, acc := FillOctet(context, out, i, acc);
    }
    for k := SCALAR_BITS to GADGET_LEN
      invariant |out| == GADGET_LEN
      invariant forall n :: 0 <= n < k ==> out[n] == GadgetAt(context, n)
    {
      out := out[k := NoiseOf(context, k - SCALAR_BITS)];
    }
  }

  lemma Pow2Zero()
    ensures Pow2(0) == 1
  {
  }

  /** The inner loop, which writes the eight weights of byte i. */
  method FillOctet(context: Context, before: seq<Scalar>, i: nat, start: Scalar) returns (out: seq<Scalar>, acc: Scalar)
    requires i < SCALAR_BYTES && |before| == GADGET_LEN
    requires start == Red(Pow2(8 * (SCALAR_BYTES - 1 - i)))
    ensures |out| == GADGET_LEN && acc == Red(Pow2(8 * (SCALAR_BYTES - i)))
    ensures forall k :: 8 * i <= k < 8 * i + 8 ==> out[k] == GadgetAt(context, k)
    ensures forall k :: 0 <= k < |out| && !(8 * i <= k < 8 * i + 8) ==> out[k] == before[k]
  {
    hide Pow2, BitWeight, Red, Add;
    out, acc := before, start;
    for j := 0 to 8
      invariant |out| == GADGET_LEN && acc == Red(Pow2(8 * (SCALAR_BYTES - 1 - i) + j))
      invariant forall k :: 8 * i <= k < 8 * i + j ==> out[k] == GadgetAt(context, k)
      invariant forall k :: 0 <= k < |out| && !(8 * i <= k < 8 * i + j) ==> out[k] == before[k]
    {
      WeightAt(i, j);
      out := out[8 * i + j := acc];
      Doubling(8 * (SCALAR_BYTES - 1 - i) + j);
      acc := Add(acc, acc);
    }
  }

  // -------------------------------------------------------------------- encoding

  /** The entries of a vector picked by the bits of a string. */
  ghost function Chosen(data: Bytes, g: seq<Scalar>): (r: seq<Scalar>)
    requires |g| == 8 * |data|
    ensures |r| == |g|
  {
    seq(|g|, i requires 0 <= i < |g| => if BitAt(i, data) then g[i] else 0)
  }

  /** encode, with the random bits gamma. */
  method Encode(beta: Scalar, noise: seq<Scalar>, gamma: Bytes) returns (data: Bytes)
    requires |noise| == 8 * |gamma|
    ensures data == ScalarBytes(Sub(beta, Sum(Chosen(gamma, noise)))) + gamma
  {
    hide BitAt, ScalarBytes, Mul;
    var acc := beta;
    ghost var chosen := Chosen(gamma, noise);
    for i := 0 to |noise|
      invariant acc == Sub(beta, Sum(chosen[..i]))
    {
      var bit: Scalar := if BitAt(i, gamma) then 1 else 0;
      MulOne(noise[i]);
      MulZero(noise[i]);
      SumStep(chosen, i);
      acc := Sub(acc, Mul(bit, noise[i]));
    }
    SumAll(chosen);
    data := ScalarBytes(acc) + gamma;
  }

  /** The powers of two picked by the first i bits of a scalar's encoding. */
  lemma {:induction false} ChosenPowers(data: Bytes, g: seq<Scalar>, i: nat)
    requires |data| == SCALAR_BYTES && |g| == 8 * SCALAR_BYTES && i <= |g|
    requires forall k :: 0 <= k < |g| ==> g[k] == Red(Pow2(BitWeight(SCALAR_BYTES, k)))
    ensures Sum(Chosen(data, g)[..i]) == Red(Weighed(data, i))
  {
    hide Pow2, BitWeight, BitAt, Red, Add;
    if i == 0 {
      RedSmall(0);
    } else {
      ChosenPowers(data, g, i - 1);
      SumStep(Chosen(data, g), i - 1);
      var w := if BitAt(i - 1, data) then Pow2(BitWeight(SCALAR_BYTES, i - 1)) else 0;
      assert Weighed(data, i) == Weighed(data, i - 1) + w;
      RedAdd(Weighed(data, i - 1), w);
      RedSmall(0);
    }
  }

  lemma ChosenConcat(a: Bytes, b: Bytes, g: seq<Scalar>)
    requires |g| == 8 * |a + b|
    ensures Sum(Chosen(a + b, g)) == Add(Sum(Chosen(a, g[..8 * |a|])), Sum(Chosen(b, g[8 * |a|..])))
  {
    hide Add;
    var n := 8 * |a|;
    var left, right := Chosen(a, g[..n]), Chosen(b, g[n..]);
    forall i | 0 <= i < |g| ensures Chosen(a + b, g)[i] == (left + right)[i] {
      ConcatBit(a, b, i);
    }
    assert Chosen(a + b, g) == left + right;
    SumConcat(left, right);
  }

  lemma ConcatBit(a: Bytes, b: Bytes, i: nat)
    requires i < 8 * |a + b|
    ensures BitAt(i, a + b) == if i < 8 * |a| then BitAt(i, a) else BitAt(i - 8 * |a|, b)
  {
  }

  /** The encoding decodes: for every noise and coins, its bits dotted with the gadget give beta. */
  lemma Decodes(context: Context, beta: Scalar, gamma: Bytes, data: Bytes)
    requires |gamma| == NOISE_BYTES
    requires data == ScalarBytes(Sub(beta, Sum(Chosen(gamma, Gadget(context)[SCALAR_BITS..])))) + gamma
    ensures |data| == SCALAR_BYTES + NOISE_BYTES && Sum(Chosen(data, Gadget(context))) == beta
  {
    hide Chosen, ScalarBytes, Pow2, BitWeight, Red, Weighed, Value;
    var g := Gadget(context);
    var noise := Sum(Chosen(gamma, g[SCALAR_BITS..]));
    var acc := Sub(beta, noise);
    var head := ScalarBytes(acc);
    var powers := g[..SCALAR_BITS];
    ChosenConcat(head, gamma, g);
    ChosenPowers(head, powers, SCALAR_BITS);
    SumAll(Chosen(head, powers));
    WeighedIsValue(head);
    ScalarRoundTrip(acc);
    assert Value(head) == acc by { DecodedValue(head); }
    RedSmall(acc);
  }

  lemma DecodedValue(b: Bytes)
    ensures ScalarFromBytes(b).Some? ==> ScalarFromBytes(b).value == Value(b)
  {
  }

  // --------------------------------------------------------------------- parties

  datatype Reply = Reply(wire: seq<(Bytes, Bytes)>, rCheck: seq<Scalar>, uCheck: Scalar)

  function Weigh(p: Pair, chi: Pair): (r: Scalar) {
    Add(Mul(p.0, chi.0), Mul(p.1, chi.1))
  }

  function ChiPair(context: Context): (chi: Pair) {
    (ChiScalar(context, 0), ChiScalar(context, 1))
  }

  /** The dot product of the first components with the gadget. */
  ghost function Dot(ps: seq<Pair>, g: seq<Scalar>): Scalar
    requires |ps| == |g|
  {
    Sum(DotTerms(ps, g))
  }

  ghost function DotTerms(ps: seq<Pair>, g: seq<Scalar>): (r: seq<Scalar>)
    requires |ps| == |g|
    ensures |r| == |g|
  {
    seq(|g|, i requires 0 <= i < |g| => Mul(ps[i].0, g[i]))
  }

  /** The share loop of both parties. */
  method ShareOf(ps: seq<Pair>, g: seq<Scalar>) returns (share: Scalar)
    requires |ps| == |g|
    ensures share == Dot(ps, g)
  {
    hide Add, Mul;
    share := 0;
    ghost var terms := DotTerms(ps, g);
    for i := 0 to |ps|
      invariant share == Sum(terms[..i])
    {
      SumStep(terms, i);
      share := Add(share, Mul(ps[i].0, g[i]));
    }
    SumAll(terms);
  }

  /** The sender's reply and share, for pads ps and wire pads. */
  ghost predicate Replied(context: Context, alpha: Pair, u: seq<Bytes>, ps: seq<Pair>, reply: Reply, share: Scalar) {
    var chi := ChiPair(context + u);
    && |ps| == |reply.rCheck| == GADGET_LEN
    && reply.uCheck == Weigh(alpha, chi)
    && (forall i :: 0 <= i < GADGET_LEN ==> reply.rCheck[i] == Weigh(ps[i], chi))
    && share == Dot(ps, Gadget(context))
  }

  /** The pads and the wire of the additive transfer underneath. */
  ghost predicate Sends(context: Context, setup: SendSetup, alpha: Pair, u: seq<Bytes>,
                        wire: seq<(Bytes, Bytes)>, ps: seq<Pair>)
    requires |setup.kDelta| == OT_PARAM && Sized(u, ExtendedOT.AdjustBatchSize(GADGET_LEN) / 8)
  {
    && |wire| == |ps| == GADGET_LEN
    && forall i :: 0 <= i < GADGET_LEN ==>
         var sent := ExtendedOT.Sent(context, setup, GADGET_LEN, u, i);
         wire[i] == PairBytes(Combined(sent.0, sent.1, alpha)) && ps[i] == Pads(sent.0)
  }

  /** Round 1 of the sender. */
  method SendRound1(context: Context, setup: SendSetup, alpha: Pair, msg: ExtendedOT.Message)
    returns (r: Result<(Reply, Scalar)>)
    requires |setup.kDelta| == OT_PARAM && ExtendedOT.Shaped(msg)
    ensures r.Ok? <==> ExtendedOT.Accepted(context, setup, GADGET_LEN, msg)
    ensures r.Ok? ==> Answers(context, setup, alpha.0, msg, r.value.0, r.value.1)
  {
    hide PairBytes, Combined, Pads, ExtendedOT.Sent, ExtendedOT.Shaped, Weigh, Add, Mul, Dot, Gadget, Sized;
    var gadget := MakeGadget(context);
    var additive, after := AdditiveOT.SendRound1(context, setup, GADGET_LEN, alpha, msg);
    if additive.Err? {
      return Err(additive.error);
    }
    var result := additive.value.1;
    var chi := ChiPair(after);
    var uCheck := Weigh(alpha, chi);
    var rCheck: seq<Scalar> := [];
    for i := 0 to |result|
      invariant |rCheck| == i && forall k :: 0 <= k < i ==> rCheck[k] == Weigh(result[k], chi)
    {
      rCheck := rCheck + [Weigh(result[i], chi)];
    }
    var share := ShareOf(result, gadget);
    var reply := Reply(additive.value.0, rCheck, uCheck);
    assert Sends(context, setup, (alpha.0, alpha.1), msg.u, reply.wire, result);
    assert Replied(context, (alpha.0, alpha.1), msg.u, result, reply, share);
    r := Ok((reply, share));
  }

  /** The integrity check of the receiver at one index. */
  predicate CheckAt(p: Pair, chi: Pair, choice: bool, uCheck: Scalar, rCheck: Scalar) {
    Weigh(p, chi) == Sub(Mul(if choice then 1 else 0, uCheck), rCheck)
  }

  class Receiver {
    const gadget: seq<Scalar>
    const choices: Bytes
    const receiver: AdditiveOT.Receiver

    /** NewMultiplyReceiver, with the random bits of the encoding. */
    constructor (context: Context, setup: ReceiveSetup, beta: Scalar, gamma: Bytes)
      requires |gamma| == NOISE_BYTES
      ensures gadget == Gadget(context)
      ensures |choices| == SCALAR_BYTES + NOISE_BYTES && Sum(Chosen(choices, Gadget(context))) == beta
      ensures fresh(receiver)
      ensures receiver.context == context && receiver.setup == setup && receiver.choices == choices
    {
      var g := MakeGadget(context);
      var c := Encode(beta, g[SCALAR_BITS..], gamma);
      Decodes(context, beta, gamma, c);
      gadget, choices := g, c;
      receiver := new AdditiveOT.Receiver(context, setup, c);
    }

    /** Round 1, with the random bytes that pad the choices. */
    method Round1(extra: Bytes) returns (msg: ExtendedOT.Message)
      requires |receiver.setup.k0| == |receiver.setup.k1| == OT_PARAM
      requires |choices| == SCALAR_BYTES + NOISE_BYTES && receiver.choices == choices
      requires 8 * (|choices| + |extra|) == ExtendedOT.AdjustBatchSize(8 * |choices|)
      modifies receiver
      ensures Waiting(this, old(receiver.context), extra, msg)
    {
      hide ExtendedOT.Honest, ExtendedOT.Received, ExtendedOT.Shaped, ExtendedOT.AdjustBatchSize;
      msg := receiver.Round1(extra);
    }

    method Round2(reply: Reply) returns (r: Result<Scalar>)
      requires Ready(this)
      ensures r.Ok? <==> Passes(receiver.pads, choices, ChiPair(receiver.context), reply)
      ensures r.Ok? ==> ShareIs(receiver.pads, choices, gadget, reply, r.value)
    {
      hide Shifted, BitAt, Weigh, Sub, Mul, Dot;
      var result := receiver.Round2(reply.wire);
      if result.Err? {
        return Err(result.error);
      }
      var ps := result.value;
      var chi := ChiPair(receiver.context);
      for i := 0 to |ps|
        invariant i <= |reply.rCheck|
        invariant forall k :: 0 <= k < i ==> CheckAt(ps[k], chi, BitAt(k, choices), reply.uCheck, reply.rCheck[k])
      {
        if i >= |reply.rCheck| {
          assert Shifted(receiver.pads[i], BitAt(i, choices), reply.wire, i).Ok?;
          return Err("index out of range");
        }
        if !CheckAt(ps[i], chi, BitAt(i, choices), reply.uCheck, reply.rCheck[i]) {
          return Err("multiply receive round 2: integrity check failed");
        }
      }
      assert Unmasked(receiver.pads, choices, reply, ps);
      var share := ShareOf(ps, gadget);
      r := Ok(share);
    }
  }

  /** A receiver between its two rounds. */
  ghost predicate Ready(m: Receiver)
    reads m.receiver
  {
    |m.choices| == SCALAR_BYTES + NOISE_BYTES && m.receiver.choices == m.choices &&
    |m.gadget| == GADGET_LEN == |m.receiver.pads|
  }

  /** The state of a receiver that has sent msg. */
  ghost predicate Waiting(m: Receiver, context: Context, extra: Bytes, msg: ExtendedOT.Message)
    reads m.receiver
  {
    var setup := m.receiver.setup;
    && |m.choices| == SCALAR_BYTES + NOISE_BYTES && m.receiver.choices == m.choices
    && |setup.k0| == |setup.k1| == OT_PARAM
    && 8 * (|m.choices| + |extra|) == ExtendedOT.AdjustBatchSize(8 * |m.choices|)
    && ExtendedOT.Shaped(msg) && ExtendedOT.Honest(context, setup, m.choices + extra, msg)
    && m.receiver.context == context + msg.u
    && |m.receiver.pads| == GADGET_LEN
    && forall i :: 0 <= i < GADGET_LEN ==>
         m.receiver.pads[i] == ExtendedOT.Received(context, setup, |m.choices| + |extra|, i)
  }

  /** The receiver's additive values. */
  ghost predicate Unmasked(pads: seq<Block>, choices: Bytes, reply: Reply, ps: seq<Pair>)
    requires |pads| == 8 * |choices| == |ps|
  {
    forall i :: 0 <= i < |pads| ==> Shifted(pads[i], BitAt(i, choices), reply.wire, i) == Ok(ps[i])
  }

  /** The receiver's share: its additive values dotted with the gadget. */
  ghost predicate ShareIs(pads: seq<Block>, choices: Bytes, gadget: seq<Scalar>, reply: Reply, share: Scalar)
    requires |pads| == 8 * |choices| == |gadget|
  {
    exists ps :: |ps| == |pads| && Unmasked(pads, choices, reply, ps) && share == Dot(ps, gadget)
  }

  /** Every pad decodes and satisfies the integrity check. */
  ghost predicate Passes(pads: seq<Block>, choices: Bytes, chi: Pair, reply: Reply)
    requires |pads| == 8 * |choices|
  {
    forall i :: 0 <= i < |pads| ==>
      var p := Shifted(pads[i], BitAt(i, choices), reply.wire, i);
      p.Ok? && i < |reply.rCheck| && CheckAt(p.value, chi, BitAt(i, choices), reply.uCheck, reply.rCheck[i])
  }

  // ------------------------------------------------------------------ one product

  lemma WeighAdd(p: Pair, r: Pair, chi: Pair)
    ensures Weigh((Add(p.0, r.0), Add(p.1, r.1)), chi) == Add(Weigh(p, chi), Weigh(r, chi))
  {
    hide Add, Mul;
    MulAdd(chi.0, p.0, r.0);
    MulAdd(chi.1, p.1, r.1);
    AddSwap(Mul(p.0, chi.0), Mul(p.1, chi.1), Mul(r.0, chi.0), Mul(r.1, chi.1));
  }

  /** Shares of one index satisfy the integrity check. */
  lemma CheckHolds(received: Pair, pad: Pair, choice: bool, alpha: Pair, chi: Pair)
    requires Shares(received, pad, choice, alpha)
    ensures CheckAt(received, chi, choice, Weigh(alpha, chi), Weigh(pad, chi))
  {
    hide Mul;
    WeighAdd(received, pad, chi);
    MulZero(chi.0);
    MulZero(chi.1);
    MulOne(Weigh(alpha, chi));
    MulZero(Weigh(alpha, chi));
    assert Weigh((0, 0), chi) == 0;
    hide Weigh;
    Difference(Weigh(received, chi), Weigh(pad, chi));
  }

  lemma Difference(a: Scalar, b: Scalar)
    ensures a == Sub(Add(a, b), b)
  {
  }

  /** Shares at every index make dot products that add up to alpha times what the choices pick. */
  lemma SharesAdd(received: seq<Pair>, pads: seq<Pair>, choices: Bytes, alpha: Pair, g: seq<Scalar>)
    requires |received| == |pads| == |g| == 8 * |choices|
    requires forall i :: 0 <= i < |g| ==> Shares(received[i], pads[i], BitAt(i, choices), alpha)
    ensures Add(Dot(received, g), Dot(pads, g)) == Mul(alpha.0, Sum(Chosen(choices, g)))
  {
    hide Add, Mul, BitAt;
    var chosen := Chosen(choices, g);
    var terms := seq(|g|, i requires 0 <= i < |g| => Mul(alpha.0, chosen[i]));
    forall i | 0 <= i < |g| ensures terms[i] == Add(DotTerms(received, g)[i], DotTerms(pads, g)[i]) {
      assert Shares(received[i], pads[i], BitAt(i, choices), alpha);
      MulAdd(g[i], received[i].0, pads[i].0);
      MulZero(g[i]);
      MulZero(alpha.0);
    }
    SumAdd(DotTerms(received, g), DotTerms(pads, g), terms);
    SumScale(alpha.0, chosen, terms);
  }

  /** The transfers of an honest run give shares at every index. */
  lemma TransferShares(context: Context, s: SendSetup, r: ReceiveSetup, choices: Bytes, extra: Bytes,
                       msg: ExtendedOT.Message, alpha: Pair, wire: seq<(Bytes, Bytes)>, ps: seq<Pair>, i: nat)
    requires Correlated(s, r) && |choices| == SCALAR_BYTES + NOISE_BYTES && i < GADGET_LEN
    requires 8 * (|choices| + |extra|) == ExtendedOT.AdjustBatchSize(8 * |choices|)
    requires ExtendedOT.Shaped(msg) && ExtendedOT.Honest(context, r, choices + extra, msg)
    requires Sized(msg.u, ExtendedOT.AdjustBatchSize(GADGET_LEN) / 8)
    requires Sends(context, s, alpha, msg.u, wire, ps)
    ensures var p := Shifted(ExtendedOT.Received(context, r, |choices| + |extra|, i), BitAt(i, choices), wire, i);
            p.Ok? && Shares(p.value, ps[i], BitAt(i, choices), alpha)
  {
    hide BitAt, ExtendedOT.Sent, ExtendedOT.Received, ExtendedOT.Honest, ExtendedOT.Shaped, Shifted, Shares,
      PairBytes, Combined, Pads, ExtendedOT.AdjustBatchSize, Sized, Decoded, MaskBytes;
    ExtendedOT.PadsMatch(context, s, r, choices, extra, msg, i);
    var sent := ExtendedOT.Sent(context, s, GADGET_LEN, msg.u, i);
    TransferAt(sent.0, sent.1, BitAt(i, choices), alpha);
    WellSizedShifted(ExtendedOT.Received(context, r, |choices| + |extra|, i), BitAt(i, choices), wire, i);
  }

  /** An honest product: the reply passes every check and the two shares add up to alpha * beta. */
  lemma Product(context: Context, s: SendSetup, r: ReceiveSetup, choices: Bytes, extra: Bytes,
                msg: ExtendedOT.Message, alpha: Pair, pads: seq<Block>, ps: seq<Pair>, reply: Reply, share: Scalar)
    requires Correlated(s, r) && |choices| == SCALAR_BYTES + NOISE_BYTES
    requires 8 * (|choices| + |extra|) == ExtendedOT.AdjustBatchSize(8 * |choices|)
    requires ExtendedOT.Shaped(msg) && ExtendedOT.Honest(context, r, choices + extra, msg)
    requires Sized(msg.u, ExtendedOT.AdjustBatchSize(GADGET_LEN) / 8)
    requires Sends(context, s, alpha, msg.u, reply.wire, ps) && Replied(context, alpha, msg.u, ps, reply, share)
    requires |pads| == GADGET_LEN
    requires forall i :: 0 <= i < GADGET_LEN ==>
        pads[i] == ExtendedOT.Received(context, r, |choices| + |extra|, i)
    ensures Passes(pads, choices, ChiPair(context + msg.u), reply)
    ensures forall received :: |received| == GADGET_LEN && Unmasked(pads, choices, reply, received) ==>
        Add(Dot(received, Gadget(context)), share) == Mul(alpha.0, Sum(Chosen(choices, Gadget(context))))
  {
    assert |reply.wire| == |ps| == GADGET_LEN;
    hide BitAt, ExtendedOT.Received, ExtendedOT.Honest, ExtendedOT.Shaped, Shifted, Shares,
      ExtendedOT.AdjustBatchSize, Sized, Sends, CheckAt, Weigh, Dot, Gadget, Chosen, Add, Mul;
    var chi := ChiPair(context + msg.u);
    forall i | 0 <= i < GADGET_LEN
      ensures var p := Shifted(pads[i], BitAt(i, choices), reply.wire, i);
              && p.Ok? && Shares(p.value, ps[i], BitAt(i, choices), alpha)
              && CheckAt(p.value, chi, BitAt(i, choices), reply.uCheck, reply.rCheck[i])
    {
      TransferShares(context, s, r, choices, extra, msg, alpha, reply.wire, ps, i);
      var p := Shifted(pads[i], BitAt(i, choices), reply.wire, i).value;
      CheckHolds(p, ps[i], BitAt(i, choices), alpha, chi);
    }
    forall received | |received| == GADGET_LEN && Unmasked(pads, choices, reply, received)
      ensures Add(Dot(received, Gadget(context)), share) == Mul(alpha.0, Sum(Chosen(choices, Gadget(context))))
    {
      SharesAdd(received, ps, choices, alpha, Gadget(context));
    }
  }

  /** A receiver for beta that has sent msg. */
  ghost predicate Prepared(m: Receiver, context: Context, setup: ReceiveSetup, beta: Scalar, extra: Bytes,
                           msg: ExtendedOT.Message)
    reads m.receiver
  {
    && Waiting(m, context, extra, msg) && m.receiver.setup == setup
    && m.gadget == Gadget(context) && Sum(Chosen(m.choices, m.gadget)) == beta
  }

  /** NewMultiplyReceiver followed by its first round. */
  method Start(context: Context, setup: ReceiveSetup, beta: Scalar, gamma: Bytes, extra: Bytes)
    returns (m: Receiver, msg: ExtendedOT.Message)
    requires |gamma| == NOISE_BYTES && |setup.k0| == |setup.k1| == OT_PARAM
    requires 8 * (SCALAR_BYTES + NOISE_BYTES + |extra|) == ExtendedOT.AdjustBatchSize(GADGET_LEN)
    ensures fresh(m) && fresh(m.receiver) && Prepared(m, context, setup, beta, extra, msg)
  {
    hide Waiting, Gadget, Chosen, ExtendedOT.AdjustBatchSize;
    m := new Receiver(context, setup, beta, gamma);
    msg := m.Round1(extra);
  }

  /** The sender accepts the message of an honest receiver. */
  lemma MessageAccepted(m: Receiver, context: Context, s: SendSetup, r: ReceiveSetup, beta: Scalar, extra: Bytes,
                        msg: ExtendedOT.Message)
    requires Prepared(m, context, r, beta, extra, msg) && Correlated(s, r)
    ensures ExtendedOT.Shaped(msg) && ExtendedOT.Accepted(context, s, GADGET_LEN, msg)
    ensures Sized(msg.u, ExtendedOT.AdjustBatchSize(GADGET_LEN) / 8)
  {
    hide ExtendedOT.Honest, ExtendedOT.Received, ExtendedOT.Shaped, ExtendedOT.AdjustBatchSize, Correlated, Sized;
    ExtendedOT.CheckPasses(context, s, m.receiver.setup, m.choices + extra, GADGET_LEN, msg);
  }

  /** What an honest sender with factor alpha answers to msg, and the share it keeps. */
  ghost predicate Answers(context: Context, s: SendSetup, alpha: Scalar, msg: ExtendedOT.Message,
                          reply: Reply, share: Scalar)
    requires |s.kDelta| == OT_PARAM && Sized(msg.u, ExtendedOT.AdjustBatchSize(GADGET_LEN) / 8)
  {
    exists hat: Scalar, ps: seq<Pair> ::
      Sends(context, s, (alpha, hat), msg.u, reply.wire, ps) && Replied(context, (alpha, hat), msg.u, ps, reply, share)
  }

  /** The reply of an honest sender passes, and whatever share comes out completes the product. */
  lemma ReplyCompletes(m: Receiver, context: Context, s: SendSetup, r: ReceiveSetup, beta: Scalar, extra: Bytes,
                       msg: ExtendedOT.Message, alpha: Scalar, reply: Reply, share: Scalar)
    requires Prepared(m, context, r, beta, extra, msg) && Correlated(s, r)
    requires Sized(msg.u, ExtendedOT.AdjustBatchSize(GADGET_LEN) / 8)
    requires Answers(context, s, alpha, msg, reply, share)
    ensures Ready(m)
    ensures Passes(m.receiver.pads, m.choices, ChiPair(m.receiver.context), reply)
    ensures forall t :: ShareIs(m.receiver.pads, m.choices, m.gadget, reply, t) ==> Add(t, share) == Mul(alpha, beta)
  {
    var hat: Scalar, ps: seq<Pair> :|
      Sends(context, s, (alpha, hat), msg.u, reply.wire, ps) && Replied(context, (alpha, hat), msg.u, ps, reply, share);
    hide ExtendedOT.Honest, ExtendedOT.Received, ExtendedOT.Shaped, ExtendedOT.AdjustBatchSize, Correlated, Sized,
      Sends, Replied, Passes, Unmasked, Dot, Gadget, Chosen, Add, Mul;
    Product(context, s, m.receiver.setup, m.choices, extra, msg, (alpha, hat), m.receiver.pads, ps, reply, share);
  }

  /** A whole honest multiplication, for every alpha, beta, noise and coins. */
  method Multiply(context: Context, s: SendSetup, r: ReceiveSetup, alpha: Pair, beta: Scalar, gamma: Bytes, extra: Bytes)
    returns (sent: Result<(Reply, Scalar)>, received: Result<Scalar>)
    requires Correlated(s, r) && |gamma| == NOISE_BYTES
    requires 8 * (SCALAR_BYTES + NOISE_BYTES + |extra|) == ExtendedOT.AdjustBatchSize(GADGET_LEN)
    ensures sent.Ok? && received.Ok? && Add(received.value, sent.value.1) == Mul(alpha.0, beta)
  {
    hide Prepared, Answers, Passes, ShareIs, Ready, ExtendedOT.Accepted, ExtendedOT.Shaped, Sized,
      ExtendedOT.AdjustBatchSize, Add, Mul;
    var m, msg := Start(context, r, beta, gamma, extra);
    MessageAccepted(m, context, s, r, beta, extra, msg);
    sent := SendRound1(context, s, alpha, msg);
    ReplyCompletes(m, context, s, r, beta, extra, msg, alpha.0, sent.value.0, sent.value.1);
    received := m.Round2(sent.value.0);
  }

  // ------------------------------------------------------------- what the check binds

  /** Given the rest of a reply, only one check value is accepted at each index. */
  lemma CheckBound(pads: seq<Block>, choices: Bytes, chi: Pair, reply: Reply, rCheck: seq<Scalar>, i: nat)
    requires |pads| == 8 * |choices| && i < |pads|
    requires Passes(pads, choices, chi, reply) && Passes(pads, choices, chi, reply.(rCheck := rCheck))
    ensures i < |reply.rCheck| && i < |rCheck| && reply.rCheck[i] == rCheck[i]
  {
    hide Shifted, Weigh, Mul, BitAt;
    var p := Shifted(pads[i], BitAt(i, choices), reply.wire, i);
    assert CheckAt(p.value, chi, BitAt(i, choices), reply.uCheck, reply.rCheck[i]);
    assert CheckAt(p.value, chi, BitAt(i, choices), reply.uCheck, rCheck[i]);
    SubInjective(Mul(if BitAt(i, choices) then 1 else 0, reply.uCheck), reply.rCheck[i], rCheck[i]);
  }

  lemma SubInjective(a: Scalar, b: Scalar, c: Scalar)
    ensures Sub(a, b) == Sub(a, c) <==> b == c
  {
  }

  /**
    Two replies with the same check values that both pass: what they carry at an index has the same weighted sum. So a
    change of the first component alone is refused, unless its weight is zero.
   */
  lemma ValueBound(pads: seq<Block>, choices: Bytes, chi: Pair, reply: Reply, wire: seq<(Bytes, Bytes)>, i: nat)
    requires |pads| == 8 * |choices| && i < |pads|
    requires Passes(pads, choices, chi, reply) && Passes(pads, choices, chi, reply.(wire := wire))
    ensures var p, p' := Shifted(pads[i], BitAt(i, choices), reply.wire, i), Shifted(pads[i], BitAt(i, choices), wire, i);
            && p.Ok? && p'.Ok?
            && Add(Mul(p.value.0, chi.0), Mul(p.value.1, chi.1)) == Add(Mul(p'.value.0, chi.0), Mul(p'.value.1, chi.1))
            && (chi.0 != 0 && p.value.1 == p'.value.1 ==> p.value.0 == p'.value.0)
  {
    hide Shifted, Mul, BitAt;
    var p, p' := Shifted(pads[i], BitAt(i, choices), reply.wire, i), Shifted(pads[i], BitAt(i, choices), wire, i);
    assert CheckAt(p.value, chi, BitAt(i, choices), reply.uCheck, reply.rCheck[i]);
    assert CheckAt(p'.value, chi, BitAt(i, choices), reply.uCheck, reply.rCheck[i]);
    if chi.0 != 0 && p.value.1 == p'.value.1 {
      AddInjective(Mul(p.value.1, chi.1), Mul(p.value.0, chi.0), Mul(p'.value.0, chi.0));
      MulComm(p.value.0, chi.0);
      MulComm(p'.value.0, chi.0);
      Cancel(chi.0, p.value.0, p'.value.0);
    }
  }

  lemma AddInjective(a: Scalar, b: Scalar, c: Scalar)
    ensures Add(b, a) == Add(c, a) <==> b == c
  {
  }
}
