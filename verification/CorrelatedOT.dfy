/** The correlated oblivious transfer: its setup from base transfers, and its extension step. */
module CorrelatedOT {
  import opened Zq
  import opened Party
  import opened Bits
  import Schnorr
  import RandomOT

  /** The state of a running hash: what has been written to it. */
  type Context = seq<Bytes>

  /** The nonces of the base transfers, and the transcript of the setup proof, read off the hash. */
  const NonceOf: (Context, nat) -> Bytes
  const TranscriptOf: Context -> Schnorr.Transcript

  type Expansion = f: (Context, Block, nat) -> Bytes | forall c: Context, k: Block, n: nat :: |f(c, k, n)| == n
    witness (c: Context, k: Block, n: nat) => ZeroBytes(n)

  /** The PRG keyed by the hash state: an arbitrary expansion of a block to n bytes. */
  const Prg: Expansion

  datatype SendSetup = SendSetup(delta: Block, kDelta: seq<Block>)
  datatype ReceiveSetup = ReceiveSetup(k0: seq<Block>, k1: seq<Block>)

  /** The sender holds one key of each of the receiver's pairs, picked by the bits of delta. */
  ghost predicate Correlated(s: SendSetup, r: ReceiveSetup) {
    && |s.kDelta| == |r.k0| == |r.k1| == OT_PARAM
    && forall i :: 0 <= i < OT_PARAM ==> s.kDelta[i] == if BitAt(i, s.delta) then r.k1[i] else r.k0[i]
  }

  // ----------------------------------------------------------------------- setup

  /** CorreOTSetupSender: the receiver of the base transfers. */
  class SetupSender {
    const context: Context
    var delta: Block
    var receivers: seq<RandomOT.Receiver>

    constructor (context: Context)
      ensures this.context == context
    {
      this.context := context;
      delta := ZeroBytes(OT_BYTES);
      receivers := [];
    }

    /** Round 1 with correlation vector d and randomness coins. */
    method Round1(msg: RandomOT.SetupMessage, d: Block, coins: seq<Scalar>) returns (r: Result<seq<Bytes>>)
      requires |coins| == OT_PARAM
      modifies this
      ensures r.Ok? <==> Schnorr.Verify(TranscriptOf(context), msg.proof, msg.B, G)
      ensures r.Ok? ==> delta == d && Started(context, msg.B, d, coins, receivers, r.value)
    {
      var setup := RandomOT.SetupReceive(TranscriptOf(context), msg);
      assert setup == if Schnorr.Verify(TranscriptOf(context), msg.proof, msg.B, G) then Ok(msg.B)
                      else Err("RandomOTSetupReceive: Schnorr proof failed to verify");
      hide Schnorr.Verify, RandomOT.SetupReceive, RandomOT.ReceiveRound1, RandomOT.NewReceiver, BitAt;
      if setup.Err? {
        return Err(setup.error);
      }
      delta := d;
      var states: seq<RandomOT.Receiver> := [];
      var msgs: seq<Bytes> := [];
      for i := 0 to OT_PARAM
        invariant delta == d && |states| == |msgs| == i
        invariant forall k :: 0 <= k < i ==>
            (states[k], msgs[k]) ==
            RandomOT.ReceiveRound1(RandomOT.NewReceiver(NonceOf(context, k), msg.B, BitAt(k, d)), coins[k])
      {
        var initial := RandomOT.NewReceiver(NonceOf(context, i), setup.value, BitAt(i, d));
        var state, aBytes := initial.Round1(coins[i]);
        states, msgs := states + [state], msgs + [aBytes];
      }
      receivers := states;
      return Ok(msgs);
    }

    method Round2(challenges: seq<Block>) returns (responses: seq<Block>)
      requires |receivers| == |challenges| == OT_PARAM
      modifies this`receivers
      ensures |receivers| == |responses| == OT_PARAM
      ensures forall k :: 0 <= k < OT_PARAM ==>
          (receivers[k], responses[k]) == RandomOT.ReceiveRound2(old(receivers)[k], challenges[k])
    {
      var states: seq<RandomOT.Receiver> := [];
      responses := [];
      for i := 0 to OT_PARAM
        invariant receivers == old(receivers) && |states| == |responses| == i
        invariant forall k :: 0 <= k < i ==>
            (states[k], responses[k]) == RandomOT.ReceiveRound2(receivers[k], challenges[k])
      {
        var state, response := receivers[i].Round2(challenges[i]);
        states, responses := states + [state], responses + [response];
      }
      receivers := states;
    }

    method Round3(decommits: seq<(Block, Block)>) returns (r: Result<SendSetup>)
      requires |receivers| == |decommits| == OT_PARAM
      ensures r.Ok? <==> forall k :: 0 <= k < OT_PARAM ==> Opened(receivers, decommits, k).Ok?
      ensures r.Ok? ==> r.value.delta == delta && |r.value.kDelta| == OT_PARAM
      ensures r.Ok? ==> forall k :: 0 <= k < OT_PARAM ==> Opened(receivers, decommits, k) == Ok(r.value.kDelta[k])
    {
      var keys: seq<Block> := [];
      for i := 0 to OT_PARAM
        invariant |keys| == i
        invariant forall k :: 0 <= k < i ==> Opened(receivers, decommits, k) == Ok(keys[k])
      {
        var key := receivers[i].Round3(decommits[i].0, decommits[i].1);
        if key.Err? {
          assert !Opened(receivers, decommits, i).Ok?;
          return Err(key.error);
        }
        keys := keys + [key.value];
      }
      return Ok(SendSetup(delta, keys));
    }
  }

  ghost function Opened(rs: seq<RandomOT.Receiver>, ds: seq<(Block, Block)>, k: int): Result<Block>
    requires 0 <= k < |rs| && |rs| == |ds|
  {
    RandomOT.ReceiveRound3(rs[k], ds[k].0, ds[k].1)
  }

  /** The receivers of all base transfers after their first round. */
  ghost predicate Started(context: Context, B: Point, d: Block, coins: seq<Scalar>,
                          rs: seq<RandomOT.Receiver>, msgs: seq<Bytes>)
    requires |coins| == OT_PARAM
  {
    && |rs| == |msgs| == OT_PARAM
    && forall k :: 0 <= k < OT_PARAM ==>
         (rs[k], msgs[k]) ==
         RandomOT.ReceiveRound1(RandomOT.NewReceiver(NonceOf(context, k), B, BitAt(k, d)), coins[k])
  }

  /** CorreOTSetupReceiver: the sender of the base transfers. */
  class SetupReceiver {
    const context: Context
    var senders: seq<RandomOT.Sender>

    constructor (context: Context)
      ensures this.context == context
    {
      this.context := context;
      senders := [];
    }

    /** Round 1 with secret b and proof randomness a. None where the source panics. */
    method Round1(b: Scalar, a: Scalar) returns (r: Option<RandomOT.SetupMessage>)
      modifies this
      ensures var setup := RandomOT.SetupSend(TranscriptOf(context), b, a);
              && (r.Some? <==> setup.Some?)
              && (r.Some? ==> r.value == setup.value.0 && |senders| == OT_PARAM)
              && (r.Some? ==> forall k :: 0 <= k < OT_PARAM ==>
                    senders[k] == RandomOT.NewSender(NonceOf(context, k), setup.value.1))
    {
      var setup := RandomOT.SetupSend(TranscriptOf(context), b, a);
      if setup.None? {
        return None;
      }
      var states: seq<RandomOT.Sender> := [];
      for i := 0 to OT_PARAM
        invariant |states| == i
        invariant forall k :: 0 <= k < i ==> states[k] == RandomOT.NewSender(NonceOf(context, k), setup.value.1)
      {
        states := states + [RandomOT.NewSender(NonceOf(context, i), setup.value.1)];
      }
      senders := states;
      return Some(setup.value.0);
    }

    method Round2(msgs: seq<Bytes>) returns (r: Result<seq<Block>>)
      requires |senders| == |msgs| == OT_PARAM
      modifies this`senders
      ensures r.Ok? <==> forall k :: 0 <= k < OT_PARAM ==> RandomOT.SendRound1(old(senders)[k], msgs[k]).Ok?
      ensures r.Ok? ==> |senders| == |r.value| == OT_PARAM && forall k :: 0 <= k < OT_PARAM ==>
          RandomOT.SendRound1(old(senders)[k], msgs[k]) == Ok((senders[k], r.value[k]))
    {
      var states: seq<RandomOT.Sender> := [];
      var challenges: seq<Block> := [];
      for i := 0 to OT_PARAM
        invariant senders == old(senders) && |states| == |challenges| == i
        invariant forall k :: 0 <= k < i ==> RandomOT.SendRound1(senders[k], msgs[k]) == Ok((states[k], challenges[k]))
      {
        var next := senders[i].Round1(msgs[i]);
        if next.Err? {
          return Err(next.error);
        }
        states, challenges := states + [next.value.0], challenges + [next.value.1];
      }
      senders := states;
      return Ok(challenges);
    }

    method Round3(responses: seq<Block>) returns (r: Result<(seq<(Block, Block)>, ReceiveSetup)>)
      requires |senders| == |responses| == OT_PARAM
      ensures r.Ok? <==> forall k :: 0 <= k < OT_PARAM ==> RandomOT.SendRound2(senders[k], responses[k]).Ok?
      ensures r.Ok? ==> |r.value.0| == |r.value.1.k0| == |r.value.1.k1| == OT_PARAM
      ensures r.Ok? ==> forall k :: 0 <= k < OT_PARAM ==>
          RandomOT.SendRound2(senders[k], responses[k]) == Ok((r.value.0[k], (r.value.1.k0[k], r.value.1.k1[k])))
    {
      var decommits: seq<(Block, Block)> := [];
      var k0: seq<Block>, k1: seq<Block> := [], [];
      for i := 0 to OT_PARAM
        invariant |decommits| == |k0| == |k1| == i
        invariant forall k :: 0 <= k < i ==>
            RandomOT.SendRound2(senders[k], responses[k]) == Ok((decommits[k], (k0[k], k1[k])))
      {
        var next := RandomOT.SendRound2(senders[i], responses[i]);
        if next.Err? {
          return Err(next.error);
        }
        decommits := decommits + [next.value.0];
        k0, k1 := k0 + [next.value.1.0], k1 + [next.value.1.1];
      }
      return Ok((decommits, ReceiveSetup(k0, k1)));
    }
  }

  /** No base transfer blinds to the identity, and the proof of the setup is not degenerate. */
  ghost predicate GoodCoins(context: Context, b: Scalar, a: Scalar, d: Block, coins: seq<Scalar>)
    requires |coins| == OT_PARAM
  {
    && b != 0 && a != 0
    && (var proof := Schnorr.NewProof(TranscriptOf(context), ActOnBase(b), b, G, a);
        proof.Some? ==> proof.value.response != 0)
    && forall k :: 0 <= k < OT_PARAM ==> RandomOT.Blinded(ActOnBase(b), BitAt(k, d), coins[k]) != 0
  }

  /** When the message of the receiver exists and is accepted. */
  lemma ProofAccepted(context: Context, b: Scalar, a: Scalar)
    ensures var setup := RandomOT.SetupSend(TranscriptOf(context), b, a);
            && (setup.Some? <==> b != 0)
            && (b != 0 ==>
                  && setup.value.0.B == ActOnBase(b)
                  && setup.value.1 == RandomOT.SendSetup(b, ActOnBase(b), Act(b, ActOnBase(b)))
                  && var proof := Schnorr.NewProof(TranscriptOf(context), ActOnBase(b), b, G, a);
                     proof.Some? && (Schnorr.Verify(TranscriptOf(context), setup.value.0.proof, ActOnBase(b), G) <==>
                                     a != 0 && proof.value.response != 0))
  {
    if b != 0 {
      hide Schnorr.Verify;
      Schnorr.Completeness(TranscriptOf(context), b, G, a);
    }
  }

  /** A whole honest setup succeeds exactly for good coins, and leaves the two sides correlated by the sender's vector. */
  method Setup(context: Context, b: Scalar, a: Scalar, d: Block, coins: seq<Scalar>)
    returns (s: Result<SendSetup>, r: Result<ReceiveSetup>)
    requires |coins| == OT_PARAM
    ensures s.Ok? == r.Ok? == GoodCoins(context, b, a, d, coins)
    ensures s.Ok? ==> s.value.delta == d && Correlated(s.value, r.value)
  {
    hide BitAt, RandomOT.ReceiveRound1, RandomOT.ReceiveRound2, RandomOT.ReceiveRound3,
      RandomOT.SendRound1, RandomOT.SendRound2, RandomOT.NewReceiver, RandomOT.NewSender,
      Schnorr.Verify, Schnorr.NewProof, RandomOT.Blinded, RandomOT.SetupSend;
    var receiver := new SetupReceiver(context);
    var sender := new SetupSender(context);
    ProofAccepted(context, b, a);
    var msg1 := receiver.Round1(b, a);
    if msg1.None? {
      return Err("nil response"), Err("nil response");
    }
    var blinded := sender.Round1(msg1.value, d, coins);
    if blinded.Err? {
      return Err(blinded.error), Err(blinded.error);
    }
    forall k | 0 <= k < OT_PARAM
      ensures RandomOT.SendRound1(receiver.senders[k], blinded.value[k]).Ok? <==>
              RandomOT.Blinded(ActOnBase(b), BitAt(k, d), coins[k]) != 0
    {
      RandomOT.BlindedRead(NonceOf(context, k), RandomOT.SendSetup(b, ActOnBase(b), Act(b, ActOnBase(b))), BitAt(k, d),
                           coins[k]);
    }
    var challenges := receiver.Round2(blinded.value);
    if challenges.Err? {
      return Err(challenges.error), Err(challenges.error);
    }
    var responses := sender.Round2(challenges.value);
    forall k | 0 <= k < OT_PARAM ensures RandomOT.SendRound2(receiver.senders[k], responses[k]).Ok? {
      RandomOT.Transfer(NonceOf(context, k), b, BitAt(k, d), coins[k]);
    }
    var last := receiver.Round3(responses);
    forall k | 0 <= k < OT_PARAM
      ensures Opened(sender.receivers, last.value.0, k) ==
              Ok(if BitAt(k, d) then last.value.1.k1[k] else last.value.1.k0[k])
    {
      RandomOT.Transfer(NonceOf(context, k), b, BitAt(k, d), coins[k]);
    }
    s := sender.Round3(last.value.0);
    r := Ok(last.value.1);
  }

  // ------------------------------------------------------------------- extension

  ghost predicate Sized(u: seq<Bytes>, bytes: nat) {
    |u| == OT_PARAM && forall j :: 0 <= j < OT_PARAM ==> |u[j]| == bytes
  }

  /** Column j of the sender: its expanded key, plus column j of U where delta has bit j. */
  ghost function QColumn(context: Context, s: SendSetup, u: Bytes, j: nat): (q: Bytes)
    requires j < OT_PARAM && |s.kDelta| == OT_PARAM
    ensures |q| == |u|
  {
    XorBytes(Prg(context, s.kDelta[j], |u|), MaskBytes(BitAt(j, s.delta), u))
  }

  ghost function QColumns(context: Context, s: SendSetup, bytes: nat, u: seq<Bytes>): (q: seq<Bytes>)
    requires |s.kDelta| == OT_PARAM && Sized(u, bytes)
    ensures Sized(q, bytes)
  {
    seq(OT_PARAM, j requires 0 <= j < OT_PARAM => QColumn(context, s, u[j], j))
  }

  ghost function TColumns(context: Context, r: ReceiveSetup, bytes: nat): (t: seq<Bytes>)
    requires |r.k0| == OT_PARAM
    ensures Sized(t, bytes)
  {
    seq(OT_PARAM, j requires 0 <= j < OT_PARAM => Prg(context, r.k0[j], bytes))
  }

  /** Column j of U: both expanded keys and the choices added up. */
  ghost function UColumn(context: Context, r: ReceiveSetup, choices: Bytes, j: nat): (u: Bytes)
    requires j < OT_PARAM && |r.k0| == |r.k1| == OT_PARAM
    ensures |u| == |choices|
  {
    XorBytes(XorBytes(Prg(context, r.k0[j], |choices|), Prg(context, r.k1[j], |choices|)), choices)
  }

  ghost function UColumns(context: Context, r: ReceiveSetup, choices: Bytes): (u: seq<Bytes>)
    requires |r.k0| == |r.k1| == OT_PARAM
    ensures Sized(u, |choices|)
  {
    seq(OT_PARAM, j requires 0 <= j < OT_PARAM => UColumn(context, r, choices, j))
  }

  ghost function QRows(context: Context, s: SendSetup, bytes: nat, u: seq<Bytes>): (q: seq<Block>)
    requires |s.kDelta| == OT_PARAM && Sized(u, bytes)
    ensures |q| == 8 * bytes
  {
    Transposed(8 * bytes, QColumns(context, s, bytes, u))
  }

  ghost function TRows(context: Context, r: ReceiveSetup, bytes: nat): (t: seq<Block>)
    requires |r.k0| == OT_PARAM
    ensures |t| == 8 * bytes
  {
    Transposed(8 * bytes, TColumns(context, r, bytes))
  }

  /** CorreOTSend: rows q_i from the receiver's matrix U. */
  method Send(context: Context, setup: SendSetup, batchSize: nat, u: seq<Bytes>) returns (r: Result<seq<Block>>)
    requires batchSize % 8 == 0 && |setup.kDelta| == |u| == OT_PARAM
    ensures r.Ok? <==> Sized(u, batchSize / 8)
    ensures r.Ok? ==> r.value == QRows(context, setup, batchSize / 8, u)
  {
    hide BitAt, XorBytes, MaskBytes, Transposed;
    var bytes := batchSize / 8;
    var q: seq<Bytes> := [];
    for j := 0 to OT_PARAM
      invariant |q| == j
      invariant forall k :: 0 <= k < j ==> |u[k]| == bytes
      invariant forall k :: 0 <= k < j ==> q[k] == QColumn(context, setup, u[k], k)
    {
      if |u[j]| != bytes {
        return Err("CorreOTSend: incorrect batch size in message");
      }
      var column := XorMasked(Prg(context, setup.kDelta[j], bytes), BitAt(j, setup.delta), u[j]);
      q := q + [column];
    }
    assert q == QColumns(context, setup, bytes, u);
    var rows := TransposeBits(batchSize, q);
    return Ok(rows);
  }

  /** CorreOTReceive: the matrix U for the sender, and rows t_i. */
  method Receive(context: Context, setup: ReceiveSetup, choices: Bytes) returns (u: seq<Bytes>, t: seq<Block>)
    requires |setup.k0| == |setup.k1| == OT_PARAM
    ensures u == UColumns(context, setup, choices)
    ensures forall j :: 0 <= j < OT_PARAM ==>
        u[j] == XorBytes(XorBytes(Prg(context, setup.k0[j], |choices|), Prg(context, setup.k1[j], |choices|)), choices)
    ensures t == TRows(context, setup, |choices|)
  {
    hide BitAt, XorBytes, Transposed;
    var n := |choices|;
    var t0: seq<Bytes> := [];
    u := [];
    for j := 0 to OT_PARAM
      invariant |t0| == |u| == j
      invariant forall k :: 0 <= k < j ==>
          && t0[k] == Prg(context, setup.k0[k], n)
          && u[k] == UColumn(context, setup, choices, k)
    {
      var column0 := Prg(context, setup.k0[j], n);
      var column1 := Prg(context, setup.k1[j], n);
      t0 := t0 + [column0];
      u := u + [XorBytes(XorBytes(column0, column1), choices)];
    }
    assert t0 == TColumns(context, setup, n);
    t := TransposeBits(8 * n, t0);
  }

  /** Row q is row t, plus delta where the choice bit is set. */
  ghost predicate Related(q: Block, t: Block, choice: bool, delta: Block) {
    forall j :: 0 <= j < OT_PARAM ==> BitAt(j, q) == (BitAt(j, t) != (choice && BitAt(j, delta)))
  }

  /** From correlated setups and an honest U, every pair of rows is related through its choice bit. */
  lemma RowsRelated(context: Context, s: SendSetup, r: ReceiveSetup, choices: Bytes, i: nat)
    requires Correlated(s, r) && i < 8 * |choices|
    ensures Related(QRows(context, s, |choices|, UColumns(context, r, choices))[i], TRows(context, r, |choices|)[i],
                    BitAt(i, choices), s.delta)
  {
    hide BitAt, ColumnOf;
    var n := |choices|;
    var u := UColumns(context, r, choices);
    var q, t := QRows(context, s, n, u)[i], TRows(context, r, n)[i];
    forall j | 0 <= j < OT_PARAM
      ensures BitAt(j, q) == (BitAt(j, t) != (BitAt(i, choices) && BitAt(j, s.delta)))
    {
      assert BitAt(j, q) == BitAt(i, QColumn(context, s, u[j], j));
      assert BitAt(j, t) == BitAt(i, TColumns(context, r, n)[j]);
      assert BitAt(i, UColumn(context, r, choices, j)) ==
             ((BitAt(i, Prg(context, r.k0[j], n)) != BitAt(i, Prg(context, r.k1[j], n))) != BitAt(i, choices));
    }
  }
}
