/** The additive oblivious transfer: pairs of scalars instead of blocks. */
module AdditiveOT {
  import opened Zq
  import opened Party
  import opened Bits
  import opened Encoding
  import opened CorrelatedOT
  import ExtendedOT

  type Pair = (Scalar, Scalar)

  /** The k-th scalar sampled from the PRG seeded with a block. */
  const PadScalar: (Block, nat) -> Scalar

  function Pads(v: Block): (p: Pair) {
    (PadScalar(v, 0), PadScalar(v, 1))
  }

  /** The pad of the other choice, less the sender's own pad, plus alpha. */
  function Combined(v0: Block, v1: Block, alpha: Pair): (p: Pair) {
    (Add(Sub(Pads(v1).0, Pads(v0).0), alpha.0), Add(Sub(Pads(v1).1, Pads(v0).1), alpha.1))
  }

  function PairBytes(p: Pair): (b: (Bytes, Bytes))
    ensures |b.0| == |b.1| == SCALAR_BYTES
  {
    (ScalarBytes(p.0), ScalarBytes(p.1))
  }

  /** Round 1 of the sender: its own pads, and the combined pads on the wire. */
  method SendRound1(context: Context, setup: SendSetup, batchSize: nat, alpha: Pair, msg: ExtendedOT.Message)
    returns (r: Result<(seq<(Bytes, Bytes)>, seq<Pair>)>, after: Context)
    requires |setup.kDelta| == OT_PARAM && ExtendedOT.Shaped(msg)
    ensures r.Ok? <==> ExtendedOT.Accepted(context, setup, batchSize, msg)
    ensures r.Ok? ==> after == context + msg.u && |r.value.0| == |r.value.1| == batchSize
    ensures r.Ok? ==> forall i :: 0 <= i < batchSize ==>
        && r.value.0[i] == PairBytes(Combined(ExtendedOT.Sent(context, setup, batchSize, msg.u, i).0,
                                              ExtendedOT.Sent(context, setup, batchSize, msg.u, i).1, alpha))
        && r.value.1[i] == Pads(ExtendedOT.Sent(context, setup, batchSize, msg.u, i).0)
    ensures r.Ok? ==> forall i :: 0 <= i < batchSize ==>
        var v0 := ExtendedOT.Sent(context, setup, batchSize, msg.u, i).0;
        r.value.1[i] == (PadScalar(v0, 0), PadScalar(v0, 1))
  {
    hide PairBytes, Combined, ExtendedOT.Sent, ExtendedOT.Shaped;
    var extended;
    extended, after := ExtendedOT.Send(context, setup, batchSize, msg);
    if extended.Err? {
      return Err(extended.error), after;
    }
    var v0, v1 := extended.value.0, extended.value.1;
    var wire: seq<(Bytes, Bytes)>, result: seq<Pair> := [], [];
    for i := 0 to batchSize
      invariant |wire| == |result| == i
      invariant forall k :: 0 <= k < i ==>
          wire[k] == PairBytes(Combined(v0[k], v1[k], alpha)) && result[k] == Pads(v0[k])
    {
      result := result + [Pads(v0[i])];
      wire := wire + [PairBytes(Combined(v0[i], v1[i], alpha))];
    }
    r := Ok((wire, result));
  }

  /** One half of a pad on the wire. */
  function Part(pad: (Bytes, Bytes), second: bool): (b: Bytes) {
    if second then pad.1 else pad.0
  }

  /** Where a masking loop stops: it compares its index with the length of pad j, not of the pad it masks. */
  ghost function LoopEnd(wire: seq<(Bytes, Bytes)>, second: bool, j: nat): Option<nat>
    decreases |wire| - j
  {
    if j >= |wire| then None else if j < |Part(wire[j], second)| then LoopEnd(wire, second, j + 1) else Some(j)
  }

  /** One half of pad i after its masking loop; None where the loop indexes out of range. */
  ghost function MaskedPart(wire: seq<(Bytes, Bytes)>, i: nat, choice: bool, second: bool): Option<Bytes> {
    var end := LoopEnd(wire, second, 0);
    if i < |wire| && end.Some? && end.value <= |Part(wire[i], second)| then
      var pad := Part(wire[i], second);
      Some(MaskBytes(choice, pad[..end.value]) + pad[end.value..])
    else None
  }

  /** What a masked pad adds to the receiver's own, once it is decoded. */
  ghost function Decoded(v: Block, masked: (Bytes, Bytes)): Result<Pair> {
    var p0 := ScalarFromBytes(masked.0);
    var p1 := ScalarFromBytes(masked.1);
    if p0.Some? && p1.Some? then Ok((Add(Neg(Pads(v).0), p0.value), Add(Neg(Pads(v).1), p1.value)))
    else Err("UnmarshalBinary")
  }

  /** The receiver's value at index i. A panic of the source is an error here. */
  ghost function Shifted(v: Block, choice: bool, wire: seq<(Bytes, Bytes)>, i: nat): Result<Pair> {
    var m0, m1 := MaskedPart(wire, i, choice, false), MaskedPart(wire, i, choice, true);
    if m0.Some? && m1.Some? then Decoded(v, (m0.value, m1.value)) else Err("index out of range")
  }

  /** Every pad has the length of a scalar, and there are more pads than bytes in one. */
  predicate WellSized(wire: seq<(Bytes, Bytes)>) {
    |wire| > SCALAR_BYTES && forall i :: 0 <= i < |wire| ==> |wire[i].0| == |wire[i].1| == SCALAR_BYTES
  }

  lemma {:induction false} WellSizedEnd(wire: seq<(Bytes, Bytes)>, second: bool, j: nat)
    requires WellSized(wire) && j <= SCALAR_BYTES
    ensures LoopEnd(wire, second, j) == Some(SCALAR_BYTES)
    decreases SCALAR_BYTES - j
  {
    if j < SCALAR_BYTES {
      WellSizedEnd(wire, second, j + 1);
    }
  }

  /** On a well-sized message the loops mask every pad completely. */
  lemma WellSizedShifted(v: Block, choice: bool, wire: seq<(Bytes, Bytes)>, i: nat)
    requires WellSized(wire) && i < |wire|
    ensures Shifted(v, choice, wire, i) == Decoded(v, (MaskBytes(choice, wire[i].0), MaskBytes(choice, wire[i].1)))
  {
    hide Decoded, LoopEnd;
    WellSizedEnd(wire, false, 0);
    WellSizedEnd(wire, true, 0);
    WholePad(choice, wire[i].0);
    WholePad(choice, wire[i].1);
  }

  lemma WholePad(choice: bool, pad: Bytes)
    ensures MaskBytes(choice, pad[..|pad|]) + pad[|pad|..] == MaskBytes(choice, pad)
  {
    assert pad[..|pad|] == pad && pad[|pad|..] == [];
  }

  /** Masking keeps all lengths, so it moves no loop bound. */
  ghost predicate SameLengths(wire: seq<(Bytes, Bytes)>, other: seq<(Bytes, Bytes)>) {
    && |wire| == |other|
    && forall k :: 0 <= k < |wire| ==> |wire[k].0| == |other[k].0| && |wire[k].1| == |other[k].1|
  }

  lemma {:induction false} SameEnd(wire: seq<(Bytes, Bytes)>, other: seq<(Bytes, Bytes)>, second: bool, j: nat)
    requires SameLengths(wire, other)
    ensures LoopEnd(wire, second, j) == LoopEnd(other, second, j)
    decreases |wire| - j
  {
    if j < |wire| {
      SameEnd(wire, other, second, j + 1);
    }
  }

  lemma SameMasked(wire: seq<(Bytes, Bytes)>, other: seq<(Bytes, Bytes)>, i: nat, choice: bool, second: bool)
    requires SameLengths(wire, other) && (i < |wire| ==> wire[i] == other[i])
    ensures MaskedPart(wire, i, choice, second) == MaskedPart(other, i, choice, second)
  {
    hide LoopEnd, MaskBytes;
    SameEnd(wire, other, second, 0);
  }

  /** One masking loop. */
  method MaskPart(wire: seq<(Bytes, Bytes)>, i: nat, bit: bool, second: bool) returns (r: Option<Bytes>)
    ensures r == MaskedPart(wire, i, bit, second)
    ensures r.Some? ==> i < |wire| && |r.value| == |Part(wire[i], second)|
  {
    hide MaskOctet;
    if i >= |wire| {
      return None;
    }
    var pad := Part(wire[i], second);
    var masked := pad;
    var j := 0;
    while j < |wire| && j < |Part(wire[j], second)|
      invariant j <= |wire| && j <= |masked| == |pad|
      invariant LoopEnd(wire, second, j) == LoopEnd(wire, second, 0)
      invariant masked == MaskBytes(bit, pad[..j]) + pad[j..]
    {
      if j >= |masked| {
        EndBeyond(wire, second, j);
        return None;
      }
      MaskOne(bit, pad, j);
      masked := masked[j := MaskOctet(bit, masked[j])];
      j := j + 1;
    }
    if j >= |wire| {
      return None;
    }
    return Some(masked);
  }

  lemma MaskOne(bit: bool, pad: Bytes, j: nat)
    requires j < |pad|
    ensures var before := MaskBytes(bit, pad[..j]) + pad[j..];
            && |before| == |pad| && before[j] == pad[j]
            && before[j := MaskOctet(bit, before[j])] == MaskBytes(bit, pad[..j + 1]) + pad[j + 1..]
  {
    hide MaskOctet;
  }

  /** A loop that is still running at j does not stop before j + 1. */
  lemma {:induction false} EndBeyond(wire: seq<(Bytes, Bytes)>, second: bool, j: nat)
    ensures LoopEnd(wire, second, j).Some? ==> LoopEnd(wire, second, j).value >= j
    ensures j < |wire| && j < |Part(wire[j], second)| && LoopEnd(wire, second, j).Some? ==>
              LoopEnd(wire, second, j).value > j
    decreases |wire| - j
  {
    if j < |wire| {
      EndBeyond(wire, second, j + 1);
    }
  }

  class Receiver {
    const setup: ReceiveSetup
    const choices: Bytes
    var context: Context
    var pads: seq<Block>

    constructor (context: Context, setup: ReceiveSetup, choices: Bytes)
      ensures this.context == context && this.setup == setup && this.choices == choices
    {
      this.context := context;
      this.setup := setup;
      this.choices := choices;
      pads := [];
    }

    /** Round 1, with the random bytes that pad the choices. */
    method Round1(extra: Bytes) returns (msg: ExtendedOT.Message)
      requires |setup.k0| == |setup.k1| == OT_PARAM
      requires 8 * (|choices| + |extra|) == ExtendedOT.AdjustBatchSize(8 * |choices|)
      modifies this
      ensures context == old(context) + msg.u && ExtendedOT.Shaped(msg)
      ensures ExtendedOT.Honest(old(context), setup, choices + extra, msg)
      ensures |pads| == 8 * |choices|
      ensures forall i :: 0 <= i < |pads| ==>
          pads[i] == ExtendedOT.Received(old(context), setup, |choices| + |extra|, i)
    {
      hide ExtendedOT.Honest, ExtendedOT.Received, ExtendedOT.Shaped;
      msg, pads, context := ExtendedOT.Receive(context, setup, choices, extra);
    }

    /** Round 2 on any message: the first index that fails decides the error. */
    method Round2(wire: seq<(Bytes, Bytes)>) returns (r: Result<seq<Pair>>)
      requires |pads| == 8 * |choices|
      ensures r.Ok? ==> |r.value| == |pads|
      ensures r.Ok? ==> forall i :: 0 <= i < |pads| ==> Shifted(pads[i], BitAt(i, choices), wire, i) == Ok(r.value[i])
      ensures r.Err? ==> exists i ::
          && 0 <= i < |pads| && Shifted(pads[i], BitAt(i, choices), wire, i) == Err(r.error)
          && forall k :: 0 <= k < i ==> Shifted(pads[k], BitAt(k, choices), wire, k).Ok?
    {
      hide BitAt, MaskedPart, ScalarFromBytes, Add, Neg, Pads;
      var current := wire;
      var result: seq<Pair> := [];
      for i := 0 to 8 * |choices|
        invariant |result| == i && SameLengths(wire, current)
        invariant forall k :: i <= k < |wire| ==> current[k] == wire[k]
        invariant forall k :: 0 <= k < i ==> Shifted(pads[k], BitAt(k, choices), wire, k) == Ok(result[k])
      {
        SameMasked(wire, current, i, BitAt(i, choices), false);
        SameMasked(wire, current, i, BitAt(i, choices), true);
        var masked0 := MaskPart(current, i, BitAt(i, choices), false);
        var masked1 := MaskPart(current, i, BitAt(i, choices), true);
        if masked0.None? || masked1.None? {
          assert Shifted(pads[i], BitAt(i, choices), wire, i) == Err("index out of range");
          return Err("index out of range");
        }
        current := current[i := (masked0.value, masked1.value)];
        var pad0 := ScalarFromBytes(current[i].0);
        var pad1 := ScalarFromBytes(current[i].1);
        if pad0.None? || pad1.None? {
          assert Shifted(pads[i], BitAt(i, choices), wire, i) == Err("UnmarshalBinary");
          return Err("UnmarshalBinary");
        }
        var own := Pads(pads[i]);
        result := result + [(Add(Neg(own.0), pad0.value), Add(Neg(own.1), pad1.value))];
      }
      return Ok(result);
    }
  }

  /** What the two parties hold at one index adds up to alpha where the choice is set, and to zero elsewhere. */
  ghost predicate Shares(received: Pair, pad: Pair, choice: bool, alpha: Pair) {
    && Add(received.0, pad.0) == (if choice then alpha.0 else 0)
    && Add(received.1, pad.1) == (if choice then alpha.1 else 0)
  }

  /** From the pad of the choice, the receiver's value is choice * alpha less the sender's pad. */
  lemma TransferAt(v0: Block, v1: Block, choice: bool, alpha: Pair)
    ensures var wire := PairBytes(Combined(v0, v1, alpha));
            var received := Decoded(if choice then v1 else v0, (MaskBytes(choice, wire.0), MaskBytes(choice, wire.1)));
            received.Ok? && Shares(received.value, Pads(v0), choice, alpha)
  {
    hide ScalarBytes, ScalarFromBytes, ZeroBytes, MaskBytes;
    var c := Combined(v0, v1, alpha);
    ScalarRoundTrip(c.0);
    ScalarRoundTrip(c.1);
    MaskAll(choice, ScalarBytes(c.0));
    MaskAll(choice, ScalarBytes(c.1));
  }
}
