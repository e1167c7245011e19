/**
  Key generation and refresh among honest parties: however their messages are delivered, every party ends with
  its share of one key.
 */
module FrostKeygenHonest {
  import opened Zq
  import opened Polynomials
  import opened Party
  import opened Exponents
  import opened Handler
  import opened HandlerRuns
  import opened HandlerStorage
  import opened Echo
  import opened Rounds
  import opened FrostKeygenRuns
  import Delivery
  import K = FrostKeygen
  import Schnorr

  /** What the parties of one session have in common. */
  datatype Terms = Terms(ids: seq<ID>, threshold: nat, taproot: bool, refresh: bool,
                         transcript: ID -> Schnorr.Transcript, name: Data, ssid: Data,
                         hash: Data -> Digest, session: Data)

  /** All three contents can be decoded again. */
  ghost predicate FullCodec() {
    && Codec()
    && (forall b :: DecodeB3(EncodeB3(b)) == Some(b))
    && (forall s: Scalar :: DecodeM3(EncodeM3(s)) == Some(s))
  }

  ghost function Sigma(e: Env): Option<Schnorr.Proof> {
    if e.refresh then None
    else Schnorr.NewProof(e.transcript(e.self), ActOnBase(e.secret), e.secret, G, e.proofNonce)
  }

  /** Randomness that is not degenerate: no zero where the checks of the peers refuse one. */
  ghost predicate GoodCoins(e: Env) {
    && K.ValidBytes(e.chainKey, K.SEC_BYTES) && K.ValidBytes(e.decommitment, K.SEC_BYTES)
    && K.ValidBytes(K.CommitmentHash(e.transcript(e.self), e.chainKey, e.decommitment), K.DIGEST_BYTES)
    && (!e.refresh ==> e.secret != 0 && e.proofNonce != 0)
    && (Sigma(e).Some? ==> Sigma(e).value.response != 0)
  }

  ghost predicate Member(t: Terms, prior: seq<Point>, e: Env, id: ID) {
    && GoodEnv(e, prior) && GoodCoins(e) && e.self == id && e.ids == t.ids && e.threshold == t.threshold
    && e.taproot == t.taproot && e.refresh == t.refresh && e.transcript == t.transcript
  }

  /** Every party of the session is honest. */
  ghost predicate Company(t: Terms, prior: seq<Point>, envs: ID -> Env) {
    K.GoodIDs(t.ids) && forall id :: id in t.ids ==> Member(t, prior, envs(id), id)
  }

  // -------------------------------------------------------------------- messages

  ghost function Out1(e: Env): Outgoing {
    Outgoing(None, 2, EncodeB2(OwnBroadcast(e, Sigma(e))), true)
  }

  ghost function Out2(e: Env): Outgoing {
    Outgoing(None, 3, EncodeB3(K.Broadcast3(e.chainKey, e.decommitment)), true)
  }

  ghost function ShareTo(e: Env, to: ID): Outgoing {
    Outgoing(Some(to), 3, EncodeM3(Eval(Own(e), ScalarOf(to))), false)
  }

  function Of(t: Terms, self: ID): (s: Session) {
    SessionOf(self, t.ids, t.name, t.ssid)
  }

  ghost function First(t: Terms, envs: ID -> Env, id: ID): Message {
    Addressed(Of(t, id), Out1(envs(id)), None)
  }

  /** The hash of the broadcasts of round 2, the same for everybody. */
  ghost function Echoed2(t: Terms, envs: ID -> Env): Digest {
    t.hash(EchoInput(t.hash, t.session, seq(|t.ids|, k requires 0 <= k < |t.ids| => First(t, envs, t.ids[k]))))
  }

  ghost function Second(t: Terms, envs: ID -> Env, id: ID): Message {
    Addressed(Of(t, id), Out2(envs(id)), Some(Echoed2(t, envs)))
  }

  ghost function Share(t: Terms, envs: ID -> Env, id: ID, to: ID): Message {
    Addressed(Of(t, id), ShareTo(envs(id), to), Some(Echoed2(t, envs)))
  }

  /** The messages of one party to another. */
  ghost predicate SentBy(t: Terms, envs: ID -> Env, self: ID, id: ID, m: Message) {
    m == First(t, envs, id) || m == Second(t, envs, id) || m == Share(t, envs, id, self)
  }

  /** Everything the other parties send to one of them. */
  ghost predicate SentTo(t: Terms, envs: ID -> Env, self: ID, m: Message) {
    exists id :: id in t.ids && id != self && SentBy(t, envs, self, id, m)
  }

  // ---------------------------------------------------------------------- script

  ghost function Others(t: Terms, self: ID): set<ID> {
    IdSet(t.ids) - {self}
  }

  ghost function FirstData(t: Terms, envs: ID -> Env, self: ID): (d: map<ID, Data>)
    ensures d.Keys == Others(t, self) && forall id :: id in d ==> d[id] == Out1(envs(id)).data
  {
    map id | id in Others(t, self) :: Out1(envs(id)).data
  }

  ghost function ShareData(t: Terms, envs: ID -> Env, self: ID): (d: map<ID, Data>)
    ensures d.Keys == Others(t, self) && forall id :: id in d ==> d[id] == ShareTo(envs(id), self).data
  {
    map id | id in Others(t, self) :: ShareTo(envs(id), self).data
  }

  ghost function LastRound(t: Terms, envs: ID -> Env, self: ID): Header {
    var b := FirstData(t, envs, self);
    Keygen(K.Round3(AllPhi(envs(self), b), map id | id in b :: CommitmentOf(b[id])))
  }

  /** All commitments of the session. */
  ghost function Phi(t: Terms, envs: ID -> Env): map<ID, Exponent> {
    map id | id in IdSet(t.ids) :: OwnPhi(envs(id))
  }

  ghost function ResultAt(t: Terms, envs: ID -> Env, self: ID): Handler.Outcome {
    Finalize3(envs(self), Phi(t, envs), ShareData(t, envs, self))
  }

  ghost function HonestKey(t: Terms, envs: ID -> Env, self: ID): K.KeygenResult {
    var o := ResultAt(t, envs, self);
    if o.Finished? && o.result.Some? && o.result.value.Key? then o.result.value.key
    else K.Plain(K.Config(self, 0, 0, 0, [], map[]))
  }

  /** A message that nobody waits for, with a proper header. */
  function Unused(t: Terms, id: ID): (m: Message) {
    Message(t.ssid, id, None, t.name, 2, Some([]), false, None)
  }

  ghost function ScriptOf(t: Terms, envs: ID -> Env, self: ID): Delivery.Script {
    var e := envs(self);
    Delivery.Script(
      [R1, R2, LastRound(t, envs, self)],
      [[Out1(e)], [Out2(e)] + ShareMessages(e, Remove(t.ids, self)), []],
      (i: nat) => if i == 1 then Out1(e) else Out2(e),
      (i: nat, id: ID) => if i == 1 then First(t, envs, id) else Second(t, envs, id),
      (i: nat, id: ID) => if i == 1 then Unused(t, id) else Share(t, envs, id, self),
      Delivery.Success(Key(HonestKey(t, envs, self))))
  }

  // ------------------------------------------------------------------ what peers check

  /** The broadcast of an honest party passes the checks of round 2. */
  lemma FirstStored(t: Terms, prior: seq<Point>, e: Env, id: ID, at: Env)
    requires FullCodec() && Member(t, prior, e, id) && at.refresh == t.refresh && at.transcript == t.transcript
    ensures DecodeB2(Out1(e).data) == Some(OwnBroadcast(e, Sigma(e)))
    ensures StoresBroadcast(at, R2, id, Out1(e).data)
    ensures !t.refresh ==> Sigma(e).Some?
  {
    var f := Own(e);
    K.FreshCommitment(f);
    hide Eval, Full, Mul, CommitmentTo;
    if !e.refresh {
      ConstantOf(f);
      Schnorr.Completeness(e.transcript(id), e.secret, G, e.proofNonce);
    }
  }

  lemma ConstantOf(f: seq<Scalar>)
    requires |f| > 0 && f[0] != 0
    ensures CommitmentTo(f).coefficients != [] && Constant(CommitmentTo(f)) == ActOnBase(f[0])
  {
  }

  /** What can be read in the first broadcast of an honest party. */
  lemma FirstRead(e: Env)
    requires Codec()
    ensures PhiOf(Out1(e).data) == OwnPhi(e)
    ensures CommitmentOf(Out1(e).data) == K.CommitmentHash(e.transcript(e.self), e.chainKey, e.decommitment)
  {
    hide OwnPhi, Sigma;
  }

  /** What round 3 of the script knows of another party. */
  lemma LastKnows(t: Terms, envs: ID -> Env, self: ID, id: ID)
    requires id in Others(t, self) && envs(self).self == self
    ensures var h := LastRound(t, envs, self);
            && h.Keygen? && h.keygen.Round3? && id in h.keygen.phi && id in h.keygen.commitments
            && h.keygen.phi[id] == PhiOf(Out1(envs(id)).data)
            && h.keygen.commitments[id] == CommitmentOf(Out1(envs(id)).data)
  {
    hide OwnPhi, Out1, PhiOf, CommitmentOf;
  }

  lemma OpensOwn(e: Env)
    requires GoodCoins(e)
    ensures var t := e.transcript(e.self);
            K.Stores3(t, K.CommitmentHash(t, e.chainKey, e.decommitment), K.Broadcast3(e.chainKey, e.decommitment))
  {
    hide K.ValidBytes, Sigma;
  }

  lemma MemberFacts(t: Terms, prior: seq<Point>, envs: ID -> Env, id: ID)
    requires Company(t, prior, envs) && id in t.ids
    ensures envs(id).self == id && envs(id).ids == t.ids && envs(id).transcript == t.transcript
    ensures GoodEnv(envs(id), prior) && GoodCoins(envs(id))
  {
    hide GoodEnv, GoodCoins;
    assert Member(t, prior, envs(id), id);
  }

  lemma OpeningStored(at: Env, h: Header, id: ID, b: K.Broadcast3)
    requires FullCodec() && h.Keygen? && h.keygen.Round3? && id in h.keygen.commitments
    requires K.Stores3(at.transcript(id), h.keygen.commitments[id], b)
    ensures StoresBroadcast(at, h, id, EncodeB3(b))
  {
    hide K.Stores3;
  }

  /** The second broadcast of an honest party opens the commitment in its first. */
  lemma SecondStored(t: Terms, prior: seq<Point>, envs: ID -> Env, self: ID, id: ID)
    requires FullCodec() && Company(t, prior, envs) && self in t.ids && id in Others(t, self)
    ensures StoresBroadcast(envs(self), LastRound(t, envs, self), id, Out2(envs(id)).data)
  {
    var e := envs(id);
    hide Company, GoodEnv, GoodCoins, LastRound, Out1, CommitmentOf, PhiOf, K.Stores3, StoresBroadcast;
    MemberFacts(t, prior, envs, self);
    MemberFacts(t, prior, envs, id);
    LastKnows(t, envs, self, id);
    FirstRead(e);
    OpensOwn(e);
    OpeningStored(envs(self), LastRound(t, envs, self), id, K.Broadcast3(e.chainKey, e.decommitment));
  }

  lemma OpenedStored(at: Env, h: Header, id: ID, e: Env)
    requires FullCodec() && h.Keygen? && h.keygen.Round3? && id in h.keygen.phi && h.keygen.phi[id] == OwnPhi(e)
    ensures StoresMessage(at, h, id, ShareTo(e, at.self).data)
  {
    CommitmentOpens(Own(e));
    hide Eval, Full, Own, CommitmentTo, Mul;
  }

  /** The share of an honest party opens its commitment. */
  lemma ShareStored(t: Terms, prior: seq<Point>, envs: ID -> Env, self: ID, id: ID)
    requires FullCodec() && Company(t, prior, envs) && self in t.ids && id in Others(t, self)
    ensures StoresMessage(envs(self), LastRound(t, envs, self), id, ShareTo(envs(id), self).data)
  {
    hide Company, LastRound, Out1, ShareTo, PhiOf, OwnPhi, CommitmentOf, StoresMessage, GoodEnv, GoodCoins;
    MemberFacts(t, prior, envs, self);
    LastKnows(t, envs, self, id);
    FirstRead(envs(id));
    OpenedStored(envs(self), LastRound(t, envs, self), id, envs(id));
  }

  /** Everybody works with the same commitments. */
  lemma CommonPhi(t: Terms, prior: seq<Point>, envs: ID -> Env, self: ID)
    requires FullCodec() && Company(t, prior, envs) && self in t.ids
    ensures AllPhi(envs(self), FirstData(t, envs, self)) == Phi(t, envs)
  {
    hide OwnPhi, GoodEnv, GoodCoins;
    var phi := AllPhi(envs(self), FirstData(t, envs, self));
    assert Member(t, prior, envs(self), self);
    forall id | id in t.ids ensures id in phi && phi[id] == OwnPhi(envs(id)) {
      if id != self {
        assert Member(t, prior, envs(id), id);
        FirstStored(t, prior, envs(id), id, envs(self));
      }
    }
    assert phi.Keys == IdSet(t.ids);
  }

  /** The shape of an honest commitment is fixed by the terms. */
  lemma ShapeOf(e: Env)
    requires GoodCoins(e)
    ensures OwnPhi(e).isConstant == e.refresh
    ensures |OwnPhi(e).coefficients| == |e.sampled| + if e.refresh then 0 else 1
  {
    hide K.ValidBytes, Sigma;
  }

  /** Honest commitments all have one shape. */
  lemma HonestShape(t: Terms, prior: seq<Point>, envs: ID -> Env, self: ID)
    requires Company(t, prior, envs) && self in t.ids
    ensures K.AllOneShape(Phi(t, envs), self)
  {
    hide GoodCoins, OwnPhi, K.Holds, K.GoodIDs;
    assert Member(t, prior, envs(self), self);
    ShapeOf(envs(self));
    forall id | id in t.ids ensures SameShape(OwnPhi(envs(self)), OwnPhi(envs(id))) {
      assert Member(t, prior, envs(id), id);
      ShapeOf(envs(id));
    }
  }

  lemma HonestSupplied(t: Terms, prior: seq<Point>, envs: ID -> Env, self: ID)
    requires FullCodec() && Company(t, prior, envs) && self in t.ids
    ensures Supplied(envs(self), Phi(t, envs), AllShares(envs(self), ShareData(t, envs, self)))
  {
    var e, m, h := envs(self), ShareData(t, envs, self), LastRound(t, envs, self);
    assert e.self == self && e.ids == t.ids by { assert Member(t, prior, e, self); }
    assert m.Keys == Others(t, self) && FirstData(t, envs, self).Keys == Others(t, self);
    CommonPhi(t, prior, envs, self);
    forall id | id in m ensures StoresMessage(e, h, id, m[id]) {
      ShareStored(t, prior, envs, self, id);
    }
    assert h.Keygen? && h.keygen.Round3? && h.keygen.phi == AllPhi(e, FirstData(t, envs, self));
    hide StoresMessage, AllPhi, AllShares, Company, Supplied, LastRound, FirstData, ShareData, Phi, FullCodec;
    SharesOpen(e, FirstData(t, envs, self), m, h);
  }

  /** Round 3 of an honest session ends with the key, behind the polynomial of all commitments. */
  lemma HonestResult(t: Terms, prior: seq<Point>, envs: ID -> Env, self: ID)
    requires FullCodec() && Company(t, prior, envs) && self in t.ids
    ensures ResultAt(t, envs, self) == Handler.Finished(Some(Key(HonestKey(t, envs, self))), [])
    ensures K.OneLength(Phi(t, envs), t.ids, prior)
    ensures K.Finished(HonestKey(t, envs, self), self, t.threshold, t.taproot, t.ids,
                       K.Outcome(Phi(t, envs), t.ids, prior))
  {
    var e, m := envs(self), ShareData(t, envs, self);
    assert Member(t, prior, e, self);
    HonestSupplied(t, prior, envs, self);
    HonestShape(t, prior, envs, self);
    hide K.AllOneShape, K.OneLength, K.Outcome, K.Finished, GoodEnv, GoodCoins, AllShares, Company, Phi, ShareData,
      FullCodec, Supplied, Finalize3;
    EndsWithKey(e, Phi(t, envs), m);
    FinishedBehind(e, prior, Phi(t, envs), m);
  }

  /** Round 3 succeeds when everything is in and of one shape. */
  lemma EndsWithKey(e: Env, phi: map<ID, Exponent>, m: map<ID, Data>)
    requires Supplied(e, phi, AllShares(e, m)) && K.AllOneShape(phi, e.self)
    ensures var o := Finalize3(e, phi, m);
            o.Finished? && o.msgs == [] && o.result.Some? && o.result.value.Key?
  {
    hide K.Added, K.ResultOf, AllShares, K.AllOneShape;
  }

  // -------------------------------------------------------------------- the script is valid

  ghost predicate Runs(t: Terms, envs: ID -> Env, self: ID, p: Protocol) {
    self in t.ids && IsKeygen(envs(self), p, Of(t, self), t.hash, t.session)
  }

  lemma TakesPart(t: Terms, envs: ID -> Env, self: ID, p: Protocol)
    requires Runs(t, envs, self, p)
    ensures self in t.ids
  {
    hide IsKeygen;
  }

  /** The hashes that the messages of the script carry. */
  lemma CarriedHashes(t: Terms, envs: ID -> Env, self: ID, p: Protocol)
    requires Runs(t, envs, self, p)
    ensures var c, s := ScriptOf(t, envs, self), Of(t, self);
            && Delivery.Carried(p, s, c, 1) == None
            && Delivery.OwnMessage(p, s, c, 1) == First(t, envs, self)
            && Delivery.Carried(p, s, c, 2) == Some(Echoed2(t, envs))
            && Delivery.OwnMessage(p, s, c, 2) == Second(t, envs, self)
  {
    hide Out1, Out2, EchoInput, ShareMessages, LastRound, HonestKey, FinalizeRound, StoresBroadcast, StoresMessage;
    var c, s := ScriptOf(t, envs, self), Of(t, self);
    RoundsAre(t, envs, self, p);
    assert Delivery.Carried(p, s, c, 1) == None;
    assert Delivery.OwnMessage(p, s, c, 1) == First(t, envs, self);
    var list := seq(|s.parties|, k requires 0 <= k < |s.parties| =>
      if s.parties[k] == s.self then First(t, envs, self) else c.b(1, s.parties[k]));
    assert list == seq(|t.ids|, k requires 0 <= k < |t.ids| => First(t, envs, t.ids[k]));
    assert Delivery.HashOf(p, s, c, 1) == p.echo(R2, list);
  }

  lemma LastIs(t: Terms, envs: ID -> Env, self: ID)
    ensures LastRound(t, envs, self).Keygen? && LastRound(t, envs, self).keygen.Round3?
  {
  }

  lemma MemberStored(t: Terms, prior: seq<Point>, envs: ID -> Env, self: ID, id: ID)
    requires FullCodec() && Company(t, prior, envs) && self in t.ids && id in t.ids
    ensures StoresBroadcast(envs(self), R2, id, Out1(envs(id)).data)
  {
    assert Member(t, prior, envs(id), id) && Member(t, prior, envs(self), self);
    FirstStored(t, prior, envs(id), id, envs(self));
  }

  /** A header that fits the session. */
  ghost predicate Headed(t: Terms, self: ID, m: Message) {
    IsFor(m, self) && m.protocol == t.name && m.ssid == t.ssid && m.data.Some?
  }

  /** The headers of what the others send. */
  lemma Headers(t: Terms, envs: ID -> Env, self: ID, id: ID)
    requires id != self
    ensures var m := First(t, envs, id);
            Headed(t, self, m) && m.from == id && m.number == 2 && m.broadcast && m.data.value == Out1(envs(id)).data
    ensures var m := Second(t, envs, id);
            && Headed(t, self, m) && m.from == id && m.number == 3 && m.broadcast && m.data.value == Out2(envs(id)).data
            && m.verification == Some(Echoed2(t, envs))
    ensures var m := Share(t, envs, id, self);
            && Headed(t, self, m) && m.from == id && m.number == 3 && !m.broadcast
            && m.data.value == ShareTo(envs(id), self).data && m.verification == Some(Echoed2(t, envs))
    ensures var m := Unused(t, id);
            Headed(t, self, m) && m.from == id && m.number == 2 && !m.broadcast
  {
    hide Own, OwnBroadcast, Echoed2, Sigma;
  }

  /** The parts of the script, read as messages. */
  lemma ScriptIs(t: Terms, envs: ID -> Env, self: ID)
    ensures var c := ScriptOf(t, envs, self);
            && c.rounds == [R1, R2, LastRound(t, envs, self)]
            && c.sent == [[Out1(envs(self))], [Out2(envs(self))] + ShareMessages(envs(self), Remove(t.ids, self)), []]
            && c.own(1) == Out1(envs(self)) && c.own(2) == Out2(envs(self))
            && c.end == Delivery.Success(Key(HonestKey(t, envs, self)))
            && (forall id :: c.b(1, id) == First(t, envs, id) && c.m(1, id) == Unused(t, id))
            && (forall i: nat, id :: i != 1 ==>
                  c.b(i, id) == Second(t, envs, id) && c.m(i, id) == Share(t, envs, id, self))
  {
    hide First, Second, Share, Out1, Out2, LastRound, ShareMessages, HonestKey, Unused;
  }

  /** How the protocol sees the rounds of the script. */
  lemma RoundsAre(t: Terms, envs: ID -> Env, self: ID, p: Protocol)
    requires Runs(t, envs, self, p)
    ensures var h3 := LastRound(t, envs, self);
            && p.number(R1) == 1 && p.number(R2) == 2 && p.number(h3) == 3
            && !p.isBroadcast(R1) && !p.expects(R1) && p.isBroadcast(R2) && !p.expects(R2)
            && p.isBroadcast(h3) && p.expects(h3)
            && (forall h, id, d :: p.okB(h, id, d) == StoresBroadcast(envs(self), h, id, d))
            && (forall h, id, b, d :: p.okM(h, id, b, d) == StoresMessage(envs(self), h, id, d))
            && (forall h, ms :: p.echo(h, ms) == t.hash(EchoInput(t.hash, t.session, ms)))
            && (forall h, b, m :: p.finalize(h, b, m) == FinalizeRound(envs(self), h, b, m))
  {
    LastIs(t, envs, self);
    hide LastRound, StoresBroadcast, StoresMessage, EchoInput, FinalizeRound;
  }

  lemma ProperAt(t: Terms, envs: ID -> Env, self: ID, p: Protocol, i: nat, m: Message)
    requires Runs(t, envs, self, p) && Headed(t, self, m) && (i == 1 || i == 2) && m.number == i + 1
    requires i == 2 ==> m.verification == Some(Echoed2(t, envs))
    ensures Delivery.Proper(p, Of(t, self), ScriptOf(t, envs, self), i, m.from, m)
  {
    hide Runs, ScriptOf, LastRound, Echoed2, Delivery.Carried;
    var c, s := ScriptOf(t, envs, self), Of(t, self);
    assert |c.rounds| == 3 && c.rounds[1] == R2 && c.rounds[2] == LastRound(t, envs, self) by { ScriptIs(t, envs, self); }
    assert p.number(c.rounds[i]) == i + 1 by { RoundsAre(t, envs, self, p); }
    assert Delivery.Carried(p, s, c, i) == if i == 1 then None else Some(Echoed2(t, envs)) by {
      CarriedHashes(t, envs, self, p);
    }
  }

  /** What one peer sends for round i is proper and passes the checks. */
  ghost predicate PeerAt(t: Terms, envs: ID -> Env, self: ID, p: Protocol, i: nat, id: ID)
    requires i == 1 || i == 2
  {
    var c, s := ScriptOf(t, envs, self), Of(t, self);
    var b := if i == 1 then First(t, envs, id) else Second(t, envs, id);
    var m := if i == 1 then Unused(t, id) else Share(t, envs, id, self);
    var h := if i == 1 then R2 else LastRound(t, envs, self);
    && Delivery.Proper(p, s, c, i, id, b) && Delivery.Proper(p, s, c, i, id, m) && b.broadcast && !m.broadcast
    && b.data.Some? && m.data.Some? && p.okB(h, id, b.data.value) && (i == 2 ==> p.okM(h, id, b.data, m.data.value))
  }

  lemma PeerFirst(t: Terms, prior: seq<Point>, envs: ID -> Env, self: ID, p: Protocol, id: ID)
    requires FullCodec() && Company(t, prior, envs) && Runs(t, envs, self, p) && id in t.ids && id != self
    ensures PeerAt(t, envs, self, p, 1, id)
  {
    hide Company, FullCodec, Runs, ScriptOf, Delivery.Proper, StoresBroadcast, StoresMessage, LastRound, Out1, Out2,
      ShareTo, First, Second, Share, Unused, Echoed2;
    TakesPart(t, envs, self, p);
    Headers(t, envs, self, id);
    ProperAt(t, envs, self, p, 1, First(t, envs, id));
    ProperAt(t, envs, self, p, 1, Unused(t, id));
    assert p.okB(R2, id, Out1(envs(id)).data) by {
      RoundsAre(t, envs, self, p);
      MemberStored(t, prior, envs, self, id);
    }
  }

  lemma PeerSecond(t: Terms, prior: seq<Point>, envs: ID -> Env, self: ID, p: Protocol, id: ID)
    requires FullCodec() && Company(t, prior, envs) && Runs(t, envs, self, p) && id in t.ids && id != self
    ensures PeerAt(t, envs, self, p, 2, id)
  {
    hide Company, FullCodec, Runs, ScriptOf, Delivery.Proper, StoresBroadcast, StoresMessage, LastRound, Out1, Out2,
      ShareTo, First, Second, Share, Unused, Echoed2;
    TakesPart(t, envs, self, p);
    Headers(t, envs, self, id);
    ProperAt(t, envs, self, p, 2, Second(t, envs, id));
    ProperAt(t, envs, self, p, 2, Share(t, envs, id, self));
    SecondChecks(t, prior, envs, self, p, id);
  }

  lemma SecondChecks(t: Terms, prior: seq<Point>, envs: ID -> Env, self: ID, p: Protocol, id: ID)
    requires FullCodec() && Company(t, prior, envs) && Runs(t, envs, self, p) && id in t.ids && id != self
    ensures var h, b := LastRound(t, envs, self), Out2(envs(id)).data;
            p.okB(h, id, b) && p.okM(h, id, Some(b), ShareTo(envs(id), self).data)
  {
    hide Company, FullCodec, Runs, StoresBroadcast, StoresMessage, LastRound, Out2, ShareTo;
    TakesPart(t, envs, self, p);
    RoundsAre(t, envs, self, p);
    SecondStored(t, prior, envs, self, id);
    ShareStored(t, prior, envs, self, id);
  }

  lemma ValidFirst(t: Terms, prior: seq<Point>, envs: ID -> Env, self: ID, p: Protocol)
    requires FullCodec() && Company(t, prior, envs) && Runs(t, envs, self, p)
    ensures Delivery.ValidRound(p, Of(t, self), ScriptOf(t, envs, self), 1)
  {
    hide Company, FullCodec, Runs, ScriptOf, Delivery.Proper, LastRound, First, Second, Share, Unused;
    var c, s := ScriptOf(t, envs, self), Of(t, self);
    assert |c.rounds| == 3 && c.rounds[1] == R2 by { ScriptIs(t, envs, self); }
    assert !p.expects(R2) by { RoundsAre(t, envs, self, p); }
    forall id | id in Delivery.Others(s)
      ensures PeerAt(t, envs, self, p, 1, id) && c.b(1, id) == First(t, envs, id) && c.m(1, id) == Unused(t, id)
    {
      PeerFirst(t, prior, envs, self, p, id);
      ScriptIs(t, envs, self);
    }
  }

  lemma ValidSecond(t: Terms, prior: seq<Point>, envs: ID -> Env, self: ID, p: Protocol)
    requires FullCodec() && Company(t, prior, envs) && Runs(t, envs, self, p)
    ensures Delivery.ValidRound(p, Of(t, self), ScriptOf(t, envs, self), 2)
  {
    hide Company, FullCodec, Runs, ScriptOf, Delivery.Proper, LastRound, First, Second, Share, Unused;
    var c, s := ScriptOf(t, envs, self), Of(t, self);
    assert |c.rounds| == 3 && c.rounds[2] == LastRound(t, envs, self) by { ScriptIs(t, envs, self); }
    assert p.isBroadcast(c.rounds[2]) by { RoundsAre(t, envs, self, p); }
    forall id | id in Delivery.Others(s)
      ensures PeerAt(t, envs, self, p, 2, id)
      ensures c.b(2, id) == Second(t, envs, id) && c.m(2, id) == Share(t, envs, id, self)
    {
      PeerSecond(t, prior, envs, self, p, id);
      ScriptIs(t, envs, self);
    }
  }

  lemma SomeData(t: Terms, envs: ID -> Env, self: ID)
    ensures var c := ScriptOf(t, envs, self);
            forall i: nat, id :: c.b(i, id).data.Some? && c.m(i, id).data.Some?
  {
    ScriptIs(t, envs, self);
    AllData(t, envs, self);
    hide ScriptOf, First, Second, Share, Unused, LastRound, Out1, Out2, ShareTo, ShareMessages, HonestKey;
    var c := ScriptOf(t, envs, self);
    forall i: nat, id ensures c.b(i, id).data.Some? && c.m(i, id).data.Some? {
    }
  }

  /** What the script hands to Finalize. */
  lemma StepData(t: Terms, envs: ID -> Env, self: ID, p: Protocol)
    requires Runs(t, envs, self, p)
    ensures var c, s := ScriptOf(t, envs, self), Of(t, self);
            && (forall i: nat, id :: c.b(i, id).data.Some? && c.m(i, id).data.Some?)
            && Delivery.BData(p, s, c, 1) == FirstData(t, envs, self)
            && Delivery.MData(p, s, c, 2) == ShareData(t, envs, self)
  {
    hide ScriptOf, Runs, Delivery.BData, Delivery.MData, FirstData, ShareData;
    SomeData(t, envs, self);
    FirstStep(t, envs, self, p);
    SecondStep(t, envs, self, p);
  }

  lemma FirstStep(t: Terms, envs: ID -> Env, self: ID, p: Protocol)
    requires Runs(t, envs, self, p) && forall i: nat, id :: ScriptOf(t, envs, self).b(i, id).data.Some?
    ensures Delivery.BData(p, Of(t, self), ScriptOf(t, envs, self), 1) == FirstData(t, envs, self)
  {
    hide ScriptOf, Runs, First, Second, Share, Unused, LastRound, Out1, Out2, ShareTo, FirstData, Delivery.BData;
    var c, s, d := ScriptOf(t, envs, self), Of(t, self), FirstData(t, envs, self);
    assert d.Keys == Delivery.Others(s);
    assert |c.rounds| == 3 && c.rounds[1] == R2 && forall id :: c.b(1, id) == First(t, envs, id) by {
      ScriptIs(t, envs, self);
    }
    assert p.isBroadcast(c.rounds[1]) by { RoundsAre(t, envs, self, p); }
    AllData(t, envs, self);
    Delivery.BroadcastData(p, s, c, 1, d);
  }

  lemma SecondStep(t: Terms, envs: ID -> Env, self: ID, p: Protocol)
    requires Runs(t, envs, self, p) && forall i: nat, id :: ScriptOf(t, envs, self).m(i, id).data.Some?
    ensures Delivery.MData(p, Of(t, self), ScriptOf(t, envs, self), 2) == ShareData(t, envs, self)
  {
    hide ScriptOf, Runs, First, Second, Share, Unused, LastRound, Out1, Out2, ShareTo, ShareData, Delivery.MData;
    var c, s, d := ScriptOf(t, envs, self), Of(t, self), ShareData(t, envs, self);
    assert d.Keys == Delivery.Others(s);
    assert |c.rounds| == 3 && c.rounds[2] == LastRound(t, envs, self)
        && forall id :: c.m(2, id) == Share(t, envs, id, self) by {
      ScriptIs(t, envs, self);
    }
    assert p.expects(c.rounds[2]) by { RoundsAre(t, envs, self, p); }
    AllData(t, envs, self);
    Delivery.MessageData(p, s, c, 2, d);
  }

  lemma AllData(t: Terms, envs: ID -> Env, self: ID)
    ensures forall id ::
        && First(t, envs, id).data == Some(Out1(envs(id)).data) && Second(t, envs, id).data.Some?
        && Share(t, envs, id, self).data == Some(ShareTo(envs(id), self).data) && Unused(t, id).data.Some?
  {
    hide Out1, Out2, ShareTo, Echoed2;
  }

  lemma StepZero(t: Terms, prior: seq<Point>, envs: ID -> Env, self: ID, p: Protocol)
    requires FullCodec() && Company(t, prior, envs) && Runs(t, envs, self, p)
    ensures var c, s := ScriptOf(t, envs, self), Of(t, self);
            (forall id :: c.b(0, id).data.Some? && c.m(0, id).data.Some?) && Delivery.ValidStep(p, s, c, 0)
  {
    hide ScriptOf, Runs, Company, FullCodec, First, Second, Share, Unused, LastRound, Out1, Out2, FinalizeRound,
      Delivery.BData, Delivery.MData, Delivery.ValidStep, GoodEnv, GoodCoins;
    TakesPart(t, envs, self, p);
    var c, s, o := ScriptOf(t, envs, self), Of(t, self), Out1(envs(self));
    SomeData(t, envs, self);
    assert |c.rounds| == |c.sent| == 3 && c.rounds[0] == R1 && c.rounds[1] == R2 && c.sent[0] == [o] && c.own(1) == o by {
      ScriptIs(t, envs, self);
    }
    FirstOutcome(t, prior, envs, self);
    assert p.number(R2) == 2 && p.isBroadcast(R2) by { RoundsAre(t, envs, self, p); }
    assert p.finalize(R1, Delivery.BData(p, s, c, 0), Delivery.MData(p, s, c, 0)) == Next(R2, [o]) by {
      RoundsAre(t, envs, self, p);
    }
    Delivery.OneBroadcast(p, s, c, 0, o);
  }

  lemma FirstOutcome(t: Terms, prior: seq<Point>, envs: ID -> Env, self: ID)
    requires FullCodec() && Company(t, prior, envs) && self in t.ids
    ensures var e := envs(self);
            && (forall b, m :: FinalizeRound(e, R1, b, m) == Next(R2, [Out1(e)]))
            && Out1(e).broadcast && Out1(e).number == 2 && Out2(e).broadcast && Out2(e).number == 3
  {
    var e := envs(self);
    assert Member(t, prior, e, self);
    FirstStored(t, prior, e, self, e);
    hide OwnBroadcast, StoresBroadcast, GoodEnv, GoodCoins, Company;
  }

  lemma StepOne(t: Terms, prior: seq<Point>, envs: ID -> Env, self: ID, p: Protocol)
    requires FullCodec() && Company(t, prior, envs) && Runs(t, envs, self, p)
    ensures var c, s := ScriptOf(t, envs, self), Of(t, self);
            (forall id :: c.b(1, id).data.Some? && c.m(1, id).data.Some?) && Delivery.ValidStep(p, s, c, 1)
  {
    hide ScriptOf, Runs, Company, FullCodec, First, Second, Share, Unused, LastRound, Out1, Out2, FinalizeRound,
      Delivery.BData, Delivery.MData, FirstData, ShareData, ShareMessages, Remove, GoodEnv, GoodCoins,
      Delivery.ValidStep;
    TakesPart(t, envs, self, p);
    var c, s, h, o := ScriptOf(t, envs, self), Of(t, self), LastRound(t, envs, self), Out2(envs(self));
    var shares := ShareMessages(envs(self), Remove(t.ids, self));
    StepData(t, envs, self, p);
    assert c.rounds == [R1, R2, h] && |c.sent| == 3 && c.sent[1] == [o] + shares && c.own(2) == o by {
      ScriptIs(t, envs, self);
    }
    FirstOutcome(t, prior, envs, self);
    assert p.number(h) == 3 && p.isBroadcast(h) by { RoundsAre(t, envs, self, p); }
    assert p.finalize(R2, Delivery.BData(p, s, c, 1), Delivery.MData(p, s, c, 1)) == Next(h, [o] + shares) by {
      RoundsAre(t, envs, self, p);
      SecondOutcome(t, prior, envs, self);
    }
    Delivery.BroadcastStep(p, s, c, 1, o, shares);
  }

  lemma SecondOutcome(t: Terms, prior: seq<Point>, envs: ID -> Env, self: ID)
    requires Company(t, prior, envs) && self in t.ids
    ensures var e := envs(self);
            forall m :: FinalizeRound(e, R2, FirstData(t, envs, self), m) ==
                        Next(LastRound(t, envs, self), [Out2(e)] + ShareMessages(e, Remove(t.ids, self)))
  {
    assert Member(t, prior, envs(self), self);
    hide AllPhi, ShareMessages, GoodEnv, GoodCoins, FirstData;
  }

  lemma StepTwo(t: Terms, prior: seq<Point>, envs: ID -> Env, self: ID, p: Protocol)
    requires FullCodec() && Company(t, prior, envs) && Runs(t, envs, self, p)
    ensures var c, s := ScriptOf(t, envs, self), Of(t, self);
            (forall id :: c.b(2, id).data.Some? && c.m(2, id).data.Some?) && Delivery.ValidStep(p, s, c, 2)
  {
    StepData(t, envs, self, p);
    ScriptIs(t, envs, self);
    RoundsAre(t, envs, self, p);
    HonestResult(t, prior, envs, self);
    CommonPhi(t, prior, envs, self);
    assert FinalizeRound(envs(self), LastRound(t, envs, self), Delivery.BData(p, Of(t, self), ScriptOf(t, envs, self), 2),
                         ShareData(t, envs, self)) == ResultAt(t, envs, self) by {
      hide AllPhi, Finalize3, Company, FullCodec, Phi, ScriptOf, Delivery.BData, ShareData;
    }
    hide ScriptOf, Runs, Company, FullCodec, LastRound, Second, Share, First, Unused, FinalizeRound, Out1, Out2,
      ShareMessages, ResultAt, HonestKey, K.Finished, K.OneLength, K.Outcome, Phi;
  }

  /** The script of an honest session is an undisturbed execution. */
  lemma HonestScript(t: Terms, prior: seq<Point>, envs: ID -> Env, self: ID, p: Protocol)
    requires FullCodec() && Company(t, prior, envs) && Runs(t, envs, self, p)
    ensures Delivery.Valid(p, Of(t, self), ScriptOf(t, envs, self))
  {
    var c, s := ScriptOf(t, envs, self), Of(t, self);
    ValidFirst(t, prior, envs, self, p);
    ValidSecond(t, prior, envs, self, p);
    StepZero(t, prior, envs, self, p);
    StepOne(t, prior, envs, self, p);
    StepTwo(t, prior, envs, self, p);
    StepData(t, envs, self, p);
    ScriptIs(t, envs, self);
    RoundsAre(t, envs, self, p);
    hide Delivery.ValidRound, Delivery.ValidStep, Runs, Company, FullCodec, ScriptOf, LastRound, First, Second, Share,
      Out1, Out2, ShareMessages, StoresBroadcast, StoresMessage, FinalizeRound, EchoInput, Delivery.Valid,
      Delivery.BData, Delivery.MData;
    Delivery.ThreeRounds(p, s, c);
  }

  lemma ExpectedFrom(t: Terms, envs: ID -> Env, self: ID, p: Protocol, m: Message)
    requires Runs(t, envs, self, p) && m.from in t.ids && m.from != self
    ensures var c, s := ScriptOf(t, envs, self), Of(t, self);
            Delivery.ExpectedAt(p, s, c, 1, m) || Delivery.ExpectedAt(p, s, c, 2, m) <==> SentBy(t, envs, self, m.from, m)
  {
    hide ScriptOf, First, Second, Share, Runs, LastRound, Out1, Out2, ShareTo, Unused;
    var c, s, id := ScriptOf(t, envs, self), Of(t, self), m.from;
    assert |c.rounds| == 3 && c.rounds[1] == R2 && c.rounds[2] == LastRound(t, envs, self)
        && c.b(1, id) == First(t, envs, id) && c.b(2, id) == Second(t, envs, id)
        && c.m(2, id) == Share(t, envs, id, self) by {
      ScriptIs(t, envs, self);
    }
    assert p.isBroadcast(c.rounds[1]) && p.isBroadcast(c.rounds[2])
        && !p.expects(c.rounds[1]) && p.expects(c.rounds[2]) by {
      RoundsAre(t, envs, self, p);
    }
    assert First(t, envs, id).broadcast && Second(t, envs, id).broadcast && !Share(t, envs, id, self).broadcast by {
      Headers(t, envs, self, id);
    }
    assert id in Delivery.Others(s);
  }

  lemma SentFrom(t: Terms, envs: ID -> Env, self: ID, id: ID, m: Message)
    requires id != self && SentBy(t, envs, self, id, m)
    ensures m.from == id
  {
    Headers(t, envs, self, id);
    hide First, Second, Share;
  }

  /** What the script waits for is what the others send. */
  lemma ExpectedIs(t: Terms, envs: ID -> Env, self: ID, p: Protocol, m: Message)
    requires Runs(t, envs, self, p)
    ensures Delivery.Expected(p, Of(t, self), ScriptOf(t, envs, self), m) <==> SentTo(t, envs, self, m)
  {
    var c, s := ScriptOf(t, envs, self), Of(t, self);
    ScriptIs(t, envs, self);
    hide ScriptOf, First, Second, Share, Runs, Delivery.Expected, SentBy, LastRound;
    Delivery.ExpectedInThree(p, s, c, m);
    if SentTo(t, envs, self, m) {
      var id :| id in t.ids && id != self && SentBy(t, envs, self, id, m);
      SentFrom(t, envs, self, id, m);
      ExpectedFrom(t, envs, self, p, m);
    }
    if Delivery.Expected(p, s, c, m) {
      assert m.from in t.ids && m.from != self;
      ExpectedFrom(t, envs, self, p, m);
    }
  }

  // -------------------------------------------------------------------- the result

  /**
    However the messages of honest peers are delivered, in any order and with any repetitions: the run ends with
    this party's share of the key behind the sum of all commitments.
   */
  lemma HonestKeygen(t: Terms, prior: seq<Point>, envs: ID -> Env, self: ID, p: Protocol, ms: seq<Message>)
    requires FullCodec() && Company(t, prior, envs) && Runs(t, envs, self, p)
    requires forall m :: m in ms <==> SentTo(t, envs, self, m)
    ensures Bounded(p, Of(t, self))
    ensures var st := Run(p, Of(t, self), R1, ms);
            st.result == Some(Key(HonestKey(t, envs, self))) && st.err.None?
    ensures K.OneLength(Phi(t, envs), t.ids, prior)
    ensures K.Finished(HonestKey(t, envs, self), self, t.threshold, t.taproot, t.ids,
                       K.Outcome(Phi(t, envs), t.ids, prior))
  {
    var c, s := ScriptOf(t, envs, self), Of(t, self);
    KeygenShape(envs(self), p, s, t.hash, t.session);
    HonestScript(t, prior, envs, self, p);
    HonestResult(t, prior, envs, self);
    ScriptIs(t, envs, self);
    hide Run, ScriptOf, Company, FullCodec, Runs, SentTo, Delivery.Valid, K.Finished, K.OneLength, K.Outcome,
      HonestKey, Phi;
    forall m ensures m in ms <==> Delivery.Expected(p, s, c, m) {
      ExpectedIs(t, envs, self, p, m);
    }
    Delivery.AllDelivered(p, s, c, ms);
  }

  /** Whatever order of delivery each of them sees: the keys of any two parties fit together. */
  lemma HonestAgreement(t: Terms, prior: seq<Point>, envs: ID -> Env, i: ID, j: ID, p: Protocol, q: Protocol,
                        mi: seq<Message>, mj: seq<Message>)
    requires FullCodec() && Company(t, prior, envs) && Runs(t, envs, i, p) && Runs(t, envs, j, q)
    requires forall m :: m in mi <==> SentTo(t, envs, i, m)
    requires forall m :: m in mj <==> SentTo(t, envs, j, m)
    ensures Bounded(p, Of(t, i)) && Bounded(q, Of(t, j))
    ensures var ra, rb := Run(p, Of(t, i), R1, mi).result, Run(q, Of(t, j), R1, mj).result;
            && ra.Some? && ra.value.Key? && rb.Some? && rb.value.Key?
            && Agree(i, ra.value.key, j, rb.value.key, t.ids, t.threshold)
  {
    hide Run, Company, FullCodec, SentTo, IsKeygen, K.Finished, K.OneLength, K.Outcome, HonestKey, Phi, Agree;
    HonestKeygen(t, prior, envs, i, p, mi);
    HonestKeygen(t, prior, envs, j, q, mj);
    OnePolynomialAgrees(i, HonestKey(t, envs, i), j, HonestKey(t, envs, j), t.ids, t.threshold, t.taproot,
                        K.Outcome(Phi(t, envs), t.ids, prior));
  }
}
