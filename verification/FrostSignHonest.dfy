/**
  Signing among honest signers: however their messages are delivered, every signer ends with the same signature,
  which verifies.
 */
module FrostSignHonest {
  import opened Zq
  import opened Party
  import opened Handler
  import opened HandlerRuns
  import opened HandlerStorage
  import opened Echo
  import opened Rounds
  import opened FrostSignRuns
  import Delivery
  import S = FrostSign

  /** What the signers of one session have in common. */
  datatype Terms = Terms(ids: seq<ID>, taproot: bool, M: S.Message, Y: Point, YShares: map<ID, Point>,
                         name: Data, ssid: Data, hash: Data -> Digest, session: Data)

  /** Both contents can be decoded again. */
  ghost predicate FullCodec() {
    Codec() && forall z: Scalar :: DecodeB3(EncodeB3(z)) == Some(z)
  }

  ghost predicate Member(t: Terms, F: seq<Point>, e: Env, id: ID) {
    && GoodEnv(e, F) && ActOnBase(e.d) != 0 && ActOnBase(e.e) != 0
    && e.self == id && e.ids == t.ids && e.taproot == t.taproot && e.M == t.M && e.Y == t.Y && e.YShares == t.YShares
  }

  /** Every signer of the session is honest. */
  ghost predicate Company(t: Terms, F: seq<Point>, envs: ID -> Env) {
    forall id :: id in t.ids ==> Member(t, F, envs(id), id)
  }

  lemma MemberFacts(t: Terms, F: seq<Point>, envs: ID -> Env, id: ID)
    requires Company(t, F, envs) && id in t.ids
    ensures Member(t, F, envs(id), id)
  {
    hide Member;
  }

  // -------------------------------------------------------------------- messages

  ghost function Out1(e: Env): Outgoing {
    Outgoing(None, 2, EncodeB2(OwnNonces(e)), true)
  }

  ghost function Nonces1(t: Terms, envs: ID -> Env): (D: map<ID, Point>)
    ensures D.Keys == IdSet(t.ids) && forall id :: id in D ==> D[id] == OwnNonces(envs(id)).0
  {
    map id | id in IdSet(t.ids) :: OwnNonces(envs(id)).0
  }

  ghost function Nonces2(t: Terms, envs: ID -> Env): (E: map<ID, Point>)
    ensures E.Keys == IdSet(t.ids) && forall id :: id in E ==> E[id] == OwnNonces(envs(id)).1
  {
    map id | id in IdSet(t.ids) :: OwnNonces(envs(id)).1
  }

  /** The challenge of the session. */
  ghost function Challenge(t: Terms, envs: ID -> Env): S.Challenged {
    S.ChallengeIn(t.ids, t.taproot, t.M, t.Y, Nonces1(t, envs), Nonces2(t, envs))
  }

  ghost function Response(t: Terms, envs: ID -> Env, id: ID): Scalar {
    var e, ch := envs(id), Challenge(t, envs);
    if id in t.ids && id in ch.lambda then
      S.OwnResponse(id, t.ids, t.taproot, t.M, e.s, e.d, e.e, Nonces1(t, envs), Nonces2(t, envs), ch)
    else 0
  }

  ghost function Out2(t: Terms, envs: ID -> Env, id: ID): Outgoing {
    Outgoing(None, 3, EncodeB3(Response(t, envs, id)), true)
  }

  function Of(t: Terms, self: ID): (s: Session) {
    Session(self, t.ids, t.name, t.ssid, 3)
  }

  ghost function First(t: Terms, envs: ID -> Env, id: ID): Message {
    Addressed(Of(t, id), Out1(envs(id)), None)
  }

  /** The hash of the broadcasts of round 2, the same for everybody. */
  ghost function Echoed2(t: Terms, envs: ID -> Env): Digest {
    t.hash(EchoInput(t.hash, t.session, seq(|t.ids|, k requires 0 <= k < |t.ids| => First(t, envs, t.ids[k]))))
  }

  ghost function Second(t: Terms, envs: ID -> Env, id: ID): Message {
    Addressed(Of(t, id), Out2(t, envs, id), Some(Echoed2(t, envs)))
  }

  /** Everything the other signers send to one of them. */
  ghost predicate SentTo(t: Terms, envs: ID -> Env, self: ID, m: Message) {
    m.from in t.ids && m.from != self && (m == First(t, envs, m.from) || m == Second(t, envs, m.from))
  }

  // ---------------------------------------------------------------------- script

  ghost function Others(t: Terms, self: ID): set<ID> {
    IdSet(t.ids) - {self}
  }

  ghost function FirstData(t: Terms, envs: ID -> Env, self: ID): (d: map<ID, Data>)
    ensures d.Keys == Others(t, self) && forall id :: id in d ==> d[id] == Out1(envs(id)).data
  {
    map id | id in Others(t, self) :: Out1(envs(id)).data
  }

  ghost function SecondData(t: Terms, envs: ID -> Env, self: ID): (d: map<ID, Data>)
    ensures d.Keys == Others(t, self) && forall id :: id in d ==> d[id] == Out2(t, envs, id).data
  {
    map id | id in Others(t, self) :: Out2(t, envs, id).data
  }

  ghost function LastRound(t: Terms, envs: ID -> Env, self: ID): Header {
    Signing(S.Round3(Nonces1(t, envs), Nonces2(t, envs), Challenge(t, envs), Response(t, envs, self)))
  }

  ghost function ResultAt(t: Terms, envs: ID -> Env, self: ID): Outcome {
    Finalize3(envs(self), Challenge(t, envs).R, AllZ(envs(self), Response(t, envs, self), SecondData(t, envs, self)))
  }

  ghost function EndOf(t: Terms, envs: ID -> Env, self: ID): Delivery.End {
    var o := ResultAt(t, envs, self);
    if o.Finished? && o.result.Some? then Delivery.Success(o.result.value)
    else if o.Aborted? && o.reason.Some? then Delivery.Failing(Failure(o.culprits, o.reason.value))
    else Delivery.Failing(Failure([], ""))
  }

  /** With Taproot there is no signature for a group commitment that is the identity. */
  ghost predicate Hopeless(t: Terms, envs: ID -> Env) {
    t.taproot && Challenge(t, envs).R == 0
  }

  /** The end of an honest session: a signature that verifies, unless there is none. */
  ghost predicate GoodEnd(t: Terms, envs: ID -> Env, self: ID, end: Delivery.End) {
    if Hopeless(t, envs) then end.Failing?
    else end.Success? && end.value.Signature? && Verified(envs(self), Challenge(t, envs).R, end.value.signature)
  }

  /** A message that nobody waits for, with a proper header. */
  ghost function Unused(t: Terms, envs: ID -> Env, id: ID, i: nat): Message {
    Message(t.ssid, id, None, t.name, i + 1, Some([]), false, Some(Echoed2(t, envs)))
  }

  ghost function ScriptOf(t: Terms, envs: ID -> Env, self: ID): Delivery.Script {
    Delivery.Script(
      [R1, R2, LastRound(t, envs, self)],
      [[Out1(envs(self))], [Out2(t, envs, self)], []],
      (i: nat) => if i == 1 then Out1(envs(self)) else Out2(t, envs, self),
      (i: nat, id: ID) => if i == 1 then First(t, envs, id) else Second(t, envs, id),
      (i: nat, id: ID) => Unused(t, envs, id, i),
      EndOf(t, envs, self))
  }

  /** The parts of the script, read as messages. */
  lemma ScriptIs(t: Terms, envs: ID -> Env, self: ID)
    ensures var c := ScriptOf(t, envs, self);
            && c.rounds == [R1, R2, LastRound(t, envs, self)]
            && c.sent == [[Out1(envs(self))], [Out2(t, envs, self)], []]
            && c.own(1) == Out1(envs(self)) && c.own(2) == Out2(t, envs, self)
            && c.end == EndOf(t, envs, self)
            && (forall id :: c.b(1, id) == First(t, envs, id))
            && (forall i: nat, id :: i != 1 ==> c.b(i, id) == Second(t, envs, id))
            && (forall i: nat, id :: c.m(i, id) == Unused(t, envs, id, i))
  {
    hide First, Second, Out1, Out2, LastRound, EndOf, Unused;
  }

  // ------------------------------------------------------------------ what peers check

  lemma NoncesRead(e: Env)
    requires FullCodec()
    ensures NoncesOf(Out1(e).data) == OwnNonces(e)
  {
    hide OwnNonces;
  }

  /** Everybody works with the same nonce commitments. */
  lemma CommonNonces(t: Terms, F: seq<Point>, envs: ID -> Env, self: ID)
    requires FullCodec() && Company(t, F, envs) && self in t.ids
    ensures AllD(envs(self), FirstData(t, envs, self)) == Nonces1(t, envs)
    ensures AllE(envs(self), FirstData(t, envs, self)) == Nonces2(t, envs)
  {
    hide FullCodec, Company, GoodEnv, OwnNonces, FirstData, Nonces1, Nonces2, Out1, NoncesOf;
    var d := FirstData(t, envs, self);
    assert envs(self).self == self by { MemberFacts(t, F, envs, self); }
    forall id | id in d ensures NoncesOf(d[id]) == OwnNonces(envs(id)) {
      NoncesRead(envs(id));
    }
    assert AllD(envs(self), d).Keys == IdSet(t.ids) && AllE(envs(self), d).Keys == IdSet(t.ids);
  }

  /** Round 2 of an honest signer, with a response that passes. */
  lemma HonestRound2(t: Terms, F: seq<Point>, envs: ID -> Env, self: ID)
    requires FullCodec() && Company(t, F, envs) && self in t.ids
    ensures Finalize2(envs(self), FirstData(t, envs, self)) == Next(LastRound(t, envs, self), [Out2(t, envs, self)])
    ensures S.Passed(t.ids, t.YShares, Challenge(t, envs), S.Only(self, Response(t, envs, self)))
    ensures S.Committed(t.ids, t.taproot, t.M, t.Y, Nonces1(t, envs), Nonces2(t, envs), Challenge(t, envs))
  {
    MemberFacts(t, F, envs, self);
    CommonNonces(t, F, envs, self);
    hide Company, GoodEnv, FirstData, Nonces1, Nonces2, AllD, AllE, Finalize2, S.ChallengeIn, S.Passed, S.Committed,
      S.OwnResponse, FullCodec;
    SecondRound(envs(self), F, FirstData(t, envs, self));
  }

  lemma FirstStored(t: Terms, F: seq<Point>, envs: ID -> Env, self: ID, id: ID)
    requires FullCodec() && Company(t, F, envs) && id in t.ids
    ensures StoresBroadcast(envs(self), R2, id, Out1(envs(id)).data)
  {
    MemberFacts(t, F, envs, id);
    hide Company, GoodEnv;
  }

  lemma ResponseStored(at: Env, D: map<ID, Point>, E: map<ID, Point>, ch: S.Challenged, own: Scalar, id: ID, z: Scalar)
    requires FullCodec() && id in at.ids && S.Passed(at.ids, at.YShares, ch, S.Only(id, z))
    ensures StoresBroadcast(at, Signing(S.Round3(D, E, ch, own)), id, EncodeB3(z))
  {
    hide S.ResponseOk;
    assert id in S.Only(id, z) && S.Only(id, z)[id] == z;
  }

  /** The response of an honest signer passes the check of its peers. */
  lemma SecondStored(t: Terms, F: seq<Point>, envs: ID -> Env, self: ID, id: ID)
    requires FullCodec() && Company(t, F, envs) && self in t.ids && id in t.ids
    ensures StoresBroadcast(envs(self), LastRound(t, envs, self), id, Out2(t, envs, id).data)
  {
    hide Company, FullCodec, Nonces1, Nonces2, Challenge, Response, Finalize2, S.Committed, S.Passed, StoresBroadcast;
    assert envs(self).YShares == t.YShares && envs(self).ids == t.ids by { MemberFacts(t, F, envs, self); }
    HonestRound2(t, F, envs, id);
    ResponseStored(envs(self), Nonces1(t, envs), Nonces2(t, envs), Challenge(t, envs), Response(t, envs, self), id,
                   Response(t, envs, id));
  }

  /** Round 3 of an honest session ends with a signature that verifies, or, if there is none, with an error. */
  lemma HonestResult(t: Terms, F: seq<Point>, envs: ID -> Env, self: ID)
    requires FullCodec() && Company(t, F, envs) && self in t.ids
    ensures ResultAt(t, envs, self) == Delivery.OutcomeFor(EndOf(t, envs, self), [])
    ensures GoodEnd(t, envs, self, EndOf(t, envs, self))
  {
    hide Company, FullCodec, Finalize2, Challenge, Response, SecondData, StoresBroadcast, S.Passed, S.Committed, AllZ,
      Finalize3, Verified, Nonces1, Nonces2, GoodEnv, Out2;
    var e, d, z, ch := envs(self), SecondData(t, envs, self), Response(t, envs, self), Challenge(t, envs);
    MemberFacts(t, F, envs, self);
    HonestRound2(t, F, envs, self);
    forall id | id in d ensures StoresBroadcast(e, LastRound(t, envs, self), id, d[id]) {
      SecondStored(t, F, envs, self, id);
    }
    AllPass(e, ch, z, d, Nonces1(t, envs), Nonces2(t, envs));
    ThirdRound(e, F, Nonces1(t, envs), Nonces2(t, envs), ch, AllZ(e, z, d));
    NothingSent(e, ch.R, AllZ(e, z, d));
  }

  lemma NothingSent(e: Env, R: Point, zs: map<ID, Scalar>)
    ensures var o := Finalize3(e, R, zs);
            (o.Finished? || o.Aborted?) ==> o.msgs == []
  {
    hide S.SignatureOf;
  }

  // -------------------------------------------------------------------- the script is valid

  ghost predicate Runs(t: Terms, envs: ID -> Env, self: ID, p: Protocol) {
    self in t.ids && IsSigning(envs(self), p, Of(t, self), t.hash, t.session)
  }

  lemma TakesPart(t: Terms, envs: ID -> Env, self: ID, p: Protocol)
    requires Runs(t, envs, self, p)
    ensures self in t.ids
  {
    hide IsSigning;
  }

  /** How the protocol sees the rounds of the script. */
  lemma RoundsAre(t: Terms, envs: ID -> Env, self: ID, p: Protocol)
    requires Runs(t, envs, self, p)
    ensures var h3 := LastRound(t, envs, self);
            && p.number(R1) == 1 && p.number(R2) == 2 && p.number(h3) == 3
            && !p.isBroadcast(R1) && p.isBroadcast(R2) && p.isBroadcast(h3)
            && !p.expects(R1) && !p.expects(R2) && !p.expects(h3)
            && (forall h, id, d :: p.okB(h, id, d) == StoresBroadcast(envs(self), h, id, d))
            && (forall h, ms :: p.echo(h, ms) == t.hash(EchoInput(t.hash, t.session, ms)))
            && (forall h, b, m :: p.finalize(h, b, m) == FinalizeRound(envs(self), h, b))
  {
    hide Challenge, Response, StoresBroadcast, EchoInput, FinalizeRound;
  }

  /** The hashes that the messages of the script carry. */
  lemma CarriedHashes(t: Terms, envs: ID -> Env, self: ID, p: Protocol)
    requires Runs(t, envs, self, p)
    ensures var c, s := ScriptOf(t, envs, self), Of(t, self);
            && Delivery.Carried(p, s, c, 1) == None
            && Delivery.Carried(p, s, c, 2) == Some(Echoed2(t, envs))
  {
    hide Out1, Out2, EchoInput, LastRound, EndOf, FinalizeRound, StoresBroadcast;
    var c, s := ScriptOf(t, envs, self), Of(t, self);
    RoundsAre(t, envs, self, p);
    assert Delivery.OwnMessage(p, s, c, 1) == First(t, envs, self);
    var list := seq(|s.parties|, k requires 0 <= k < |s.parties| =>
      if s.parties[k] == s.self then First(t, envs, self) else c.b(1, s.parties[k]));
    assert list == seq(|t.ids|, k requires 0 <= k < |t.ids| => First(t, envs, t.ids[k]));
    assert Delivery.HashOf(p, s, c, 1) == p.echo(R2, list);
  }

  /** The headers of what the others send. */
  lemma Headers(t: Terms, envs: ID -> Env, id: ID, self: ID)
    requires id != self
    ensures var m := First(t, envs, id);
            && m.from == id && IsFor(m, self) && m.protocol == t.name && m.ssid == t.ssid && m.number == 2 && m.broadcast
            && m.data == Some(Out1(envs(id)).data)
    ensures var m := Second(t, envs, id);
            && m.from == id && IsFor(m, self) && m.protocol == t.name && m.ssid == t.ssid && m.number == 3 && m.broadcast
            && m.data == Some(Out2(t, envs, id).data) && m.verification == Some(Echoed2(t, envs))
    ensures forall i: nat ::
        var m := Unused(t, envs, id, i);
        && m.from == id && IsFor(m, self) && m.protocol == t.name && m.ssid == t.ssid && m.number == i + 1 && !m.broadcast
        && m.data == Some([]) && m.verification == Some(Echoed2(t, envs))
  {
    hide Response, OwnNonces, Echoed2;
  }

  lemma ValidFirst(t: Terms, F: seq<Point>, envs: ID -> Env, self: ID, p: Protocol)
    requires FullCodec() && Company(t, F, envs) && Runs(t, envs, self, p)
    ensures Delivery.ValidRound(p, Of(t, self), ScriptOf(t, envs, self), 1)
  {
    hide Company, FullCodec, Runs, ScriptOf, Delivery.Carried, StoresBroadcast, LastRound, Out1, Out2, First, Second,
      Unused;
    var c, s := ScriptOf(t, envs, self), Of(t, self);
    assert |c.rounds| == 3 && c.rounds[1] == R2 && Delivery.Carried(p, s, c, 1) == None by {
      ScriptIs(t, envs, self);
      CarriedHashes(t, envs, self, p);
    }
    assert p.number(R2) == 2 && p.isBroadcast(R2) && !p.expects(R2) by { RoundsAre(t, envs, self, p); }
    forall id | id in Delivery.Others(s)
      ensures Delivery.Proper(p, s, c, 1, id, c.b(1, id)) && c.b(1, id).broadcast
      ensures Delivery.Proper(p, s, c, 1, id, c.m(1, id)) && !c.m(1, id).broadcast
      ensures p.okB(R2, id, c.b(1, id).data.value)
    {
      assert c.b(1, id) == First(t, envs, id) && c.m(1, id) == Unused(t, envs, id, 1) by { ScriptIs(t, envs, self); }
      Headers(t, envs, id, self);
      assert p.okB(R2, id, Out1(envs(id)).data) by {
        RoundsAre(t, envs, self, p);
        FirstStored(t, F, envs, self, id);
      }
    }
  }

  lemma SecondProper(t: Terms, envs: ID -> Env, self: ID, p: Protocol, id: ID, m: Message)
    requires Runs(t, envs, self, p) && m.from == id && IsFor(m, self) && m.protocol == t.name && m.ssid == t.ssid
    requires m.number == 3 && m.data.Some? && m.verification == Some(Echoed2(t, envs))
    ensures Delivery.Proper(p, Of(t, self), ScriptOf(t, envs, self), 2, id, m)
  {
    hide Runs, ScriptOf, LastRound, Echoed2, Delivery.Carried;
    var c, s := ScriptOf(t, envs, self), Of(t, self);
    assert |c.rounds| == 3 && c.rounds[2] == LastRound(t, envs, self) by { ScriptIs(t, envs, self); }
    assert p.number(c.rounds[2]) == 3 by { RoundsAre(t, envs, self, p); }
    assert Delivery.Carried(p, s, c, 2) == Some(Echoed2(t, envs)) by { CarriedHashes(t, envs, self, p); }
  }

  /** What one peer sends in round 3 is proper and passes the check. */
  ghost predicate PeerFits(t: Terms, envs: ID -> Env, self: ID, p: Protocol, id: ID) {
    var c, s, b, m := ScriptOf(t, envs, self), Of(t, self), Second(t, envs, id), Unused(t, envs, id, 2);
    && Delivery.Proper(p, s, c, 2, id, b) && Delivery.Proper(p, s, c, 2, id, m) && b.broadcast && !m.broadcast
    && b.data.Some? && p.okB(LastRound(t, envs, self), id, b.data.value)
  }

  lemma PeerSecond(t: Terms, F: seq<Point>, envs: ID -> Env, self: ID, p: Protocol, id: ID)
    requires FullCodec() && Company(t, F, envs) && Runs(t, envs, self, p) && id in t.ids && id != self
    ensures PeerFits(t, envs, self, p, id)
  {
    hide Company, FullCodec, Runs, ScriptOf, Delivery.Proper, StoresBroadcast, LastRound, Out1, Out2, First, Second,
      Unused, Echoed2;
    TakesPart(t, envs, self, p);
    Headers(t, envs, id, self);
    SecondProper(t, envs, self, p, id, Second(t, envs, id));
    SecondProper(t, envs, self, p, id, Unused(t, envs, id, 2));
    assert p.okB(LastRound(t, envs, self), id, Out2(t, envs, id).data) by {
      RoundsAre(t, envs, self, p);
      SecondStored(t, F, envs, self, id);
    }
  }

  lemma ValidSecond(t: Terms, F: seq<Point>, envs: ID -> Env, self: ID, p: Protocol)
    requires FullCodec() && Company(t, F, envs) && Runs(t, envs, self, p)
    ensures Delivery.ValidRound(p, Of(t, self), ScriptOf(t, envs, self), 2)
  {
    hide Company, FullCodec, Runs, ScriptOf, Delivery.Proper, LastRound, Second, Unused;
    var c, s := ScriptOf(t, envs, self), Of(t, self);
    assert |c.rounds| == 3 && c.rounds[2] == LastRound(t, envs, self) by { ScriptIs(t, envs, self); }
    assert !p.expects(c.rounds[2]) by { RoundsAre(t, envs, self, p); }
    forall id | id in Delivery.Others(s)
      ensures PeerFits(t, envs, self, p, id) && c.b(2, id) == Second(t, envs, id) && c.m(2, id) == Unused(t, envs, id, 2)
    {
      PeerSecond(t, F, envs, self, p, id);
      ScriptIs(t, envs, self);
    }
  }

  lemma SomeData(t: Terms, envs: ID -> Env, self: ID)
    ensures var c := ScriptOf(t, envs, self);
            forall i: nat, id :: c.b(i, id).data.Some? && c.m(i, id).data.Some?
  {
    ScriptIs(t, envs, self);
    hide ScriptOf, LastRound, Out1, Out2, EndOf, Echoed2;
    var c := ScriptOf(t, envs, self);
    forall i: nat, id ensures c.b(i, id).data.Some? && c.m(i, id).data.Some? {
    }
  }

  /** What the script hands to Finalize. */
  lemma StepData(t: Terms, envs: ID -> Env, self: ID, p: Protocol, i: nat)
    requires Runs(t, envs, self, p) && (i == 1 || i == 2)
    ensures var c, s := ScriptOf(t, envs, self), Of(t, self);
            && i < |c.rounds| && (forall id :: c.b(i, id).data.Some?)
            && Delivery.BData(p, s, c, i) == if i == 1 then FirstData(t, envs, self) else SecondData(t, envs, self)
  {
    hide ScriptOf, Runs, First, Second, Unused, LastRound, Out1, Out2, FirstData, SecondData, Delivery.BData;
    var c, s := ScriptOf(t, envs, self), Of(t, self);
    var d := if i == 1 then FirstData(t, envs, self) else SecondData(t, envs, self);
    SomeData(t, envs, self);
    ScriptIs(t, envs, self);
    assert p.isBroadcast(c.rounds[i]) by { RoundsAre(t, envs, self, p); }
    assert d.Keys == Delivery.Others(s);
    forall id | id in d ensures c.b(i, id).data == Some(d[id]) {
      Headers(t, envs, id, self);
    }
    Delivery.BroadcastData(p, s, c, i, d);
  }

  lemma StepZero(t: Terms, envs: ID -> Env, self: ID, p: Protocol)
    requires Runs(t, envs, self, p)
    ensures var c, s := ScriptOf(t, envs, self), Of(t, self);
            (forall id :: c.b(0, id).data.Some? && c.m(0, id).data.Some?) && Delivery.ValidStep(p, s, c, 0)
  {
    hide ScriptOf, Runs, First, Second, Unused, LastRound, Out1, Out2, FinalizeRound, Delivery.BData, Delivery.MData,
      Delivery.ValidStep;
    var c, s, o := ScriptOf(t, envs, self), Of(t, self), Out1(envs(self));
    SomeData(t, envs, self);
    assert |c.rounds| == |c.sent| == 3 && c.rounds[0] == R1 && c.rounds[1] == R2 && c.sent[0] == [o] && c.own(1) == o by {
      ScriptIs(t, envs, self);
    }
    var b, m := Delivery.BData(p, s, c, 0), Delivery.MData(p, s, c, 0);
    assert p.number(R2) == 2 && p.isBroadcast(R2) && p.finalize(R1, b, m) == FinalizeRound(envs(self), R1, b) by {
      RoundsAre(t, envs, self, p);
    }
    FirstOutcome(envs(self), b);
    Delivery.OneBroadcast(p, s, c, 0, o);
  }

  lemma FirstOutcome(e: Env, b: map<ID, Data>)
    ensures Out1(e).broadcast && Out1(e).number == 2 && FinalizeRound(e, R1, b) == Next(R2, [Out1(e)])
  {
    hide OwnNonces;
  }

  lemma StepOne(t: Terms, F: seq<Point>, envs: ID -> Env, self: ID, p: Protocol)
    requires FullCodec() && Company(t, F, envs) && Runs(t, envs, self, p)
    ensures var c, s := ScriptOf(t, envs, self), Of(t, self);
            (forall id :: c.b(1, id).data.Some? && c.m(1, id).data.Some?) && Delivery.ValidStep(p, s, c, 1)
  {
    hide ScriptOf, Runs, First, Second, Unused, LastRound, Out1, Out2, FinalizeRound, FirstData, SecondData,
      Delivery.BData, Delivery.MData, Company, FullCodec, Delivery.ValidStep;
    TakesPart(t, envs, self, p);
    var c, s, h, o := ScriptOf(t, envs, self), Of(t, self), LastRound(t, envs, self), Out2(t, envs, self);
    SomeData(t, envs, self);
    StepData(t, envs, self, p, 1);
    assert c.rounds == [R1, R2, h] && |c.sent| == 3 && c.sent[1] == [o] && c.own(2) == o by { ScriptIs(t, envs, self); }
    assert p.number(h) == 3 && p.isBroadcast(h) by { RoundsAre(t, envs, self, p); }
    assert p.finalize(R2, Delivery.BData(p, s, c, 1), Delivery.MData(p, s, c, 1)) == Next(h, [o]) by {
      RoundsAre(t, envs, self, p);
      SecondOutcome(t, F, envs, self);
    }
    assert o.broadcast && o.number == 3 by { OutIs(t, envs, self); }
    Delivery.OneBroadcast(p, s, c, 1, o);
  }

  lemma OutIs(t: Terms, envs: ID -> Env, id: ID)
    ensures Out2(t, envs, id).broadcast && Out2(t, envs, id).number == 3
  {
    hide Response;
  }

  lemma SecondOutcome(t: Terms, F: seq<Point>, envs: ID -> Env, self: ID)
    requires FullCodec() && Company(t, F, envs) && self in t.ids
    ensures FinalizeRound(envs(self), R2, FirstData(t, envs, self)) ==
            Next(LastRound(t, envs, self), [Out2(t, envs, self)])
  {
    hide Finalize2, FirstData, LastRound, Out2, Company, FullCodec, Challenge, Response;
    HonestRound2(t, F, envs, self);
  }

  lemma StepTwo(t: Terms, F: seq<Point>, envs: ID -> Env, self: ID, p: Protocol)
    requires FullCodec() && Company(t, F, envs) && Runs(t, envs, self, p)
    ensures var c, s := ScriptOf(t, envs, self), Of(t, self);
            (forall id :: c.b(2, id).data.Some? && c.m(2, id).data.Some?) && Delivery.ValidStep(p, s, c, 2)
  {
    hide ScriptOf, Runs, First, Second, Unused, LastRound, Out1, Out2, Finalize3, FirstData, SecondData,
      Delivery.BData, Delivery.MData, Company, FullCodec, FinalizeRound, ResultAt, EndOf, Verified,
      Challenge;
    TakesPart(t, envs, self, p);
    var c, s, h := ScriptOf(t, envs, self), Of(t, self), LastRound(t, envs, self);
    SomeData(t, envs, self);
    StepData(t, envs, self, p, 2);
    assert |c.rounds| == |c.sent| == 3 && c.rounds[2] == h && c.sent[2] == []
        && c.end == EndOf(t, envs, self) by {
      ScriptIs(t, envs, self);
    }
    assert p.finalize(h, Delivery.BData(p, s, c, 2), Delivery.MData(p, s, c, 2)) == ResultAt(t, envs, self) by {
      RoundsAre(t, envs, self, p);
      LastOutcome(t, envs, self);
    }
    HonestResult(t, F, envs, self);
  }

  lemma LastOutcome(t: Terms, envs: ID -> Env, self: ID)
    ensures FinalizeRound(envs(self), LastRound(t, envs, self), SecondData(t, envs, self)) == ResultAt(t, envs, self)
  {
    hide Finalize3, AllZ, Challenge, Response, SecondData;
  }

  /** The script of an honest session is an undisturbed execution. */
  lemma HonestScript(t: Terms, F: seq<Point>, envs: ID -> Env, self: ID, p: Protocol)
    requires FullCodec() && Company(t, F, envs) && Runs(t, envs, self, p)
    ensures Delivery.Valid(p, Of(t, self), ScriptOf(t, envs, self))
  {
    hide Delivery.ValidRound, Delivery.ValidStep, Runs, Company, FullCodec, ScriptOf, LastRound, First, Second,
      Unused, Out1, Out2, Delivery.Valid, EndOf, Challenge;
    var c, s := ScriptOf(t, envs, self), Of(t, self);
    ValidFirst(t, F, envs, self, p);
    ValidSecond(t, F, envs, self, p);
    StepZero(t, envs, self, p);
    StepOne(t, F, envs, self, p);
    StepTwo(t, F, envs, self, p);
    SomeData(t, envs, self);
    ScriptIs(t, envs, self);
    RoundsAre(t, envs, self, p);
    Delivery.ThreeRounds(p, s, c);
  }

  /** What the script waits for is what the others send. */
  lemma ExpectedIs(t: Terms, envs: ID -> Env, self: ID, p: Protocol, m: Message)
    requires Runs(t, envs, self, p)
    ensures Delivery.Expected(p, Of(t, self), ScriptOf(t, envs, self), m) <==> SentTo(t, envs, self, m)
  {
    hide ScriptOf, First, Second, Runs, LastRound, Out1, Out2, Unused, Delivery.Expected;
    var c, s, id := ScriptOf(t, envs, self), Of(t, self), m.from;
    assert |c.rounds| == 3 && c.rounds[1] == R2 && c.rounds[2] == LastRound(t, envs, self)
        && c.b(1, id) == First(t, envs, id) && c.b(2, id) == Second(t, envs, id) by {
      ScriptIs(t, envs, self);
    }
    assert p.isBroadcast(c.rounds[1]) && p.isBroadcast(c.rounds[2])
        && !p.expects(c.rounds[1]) && !p.expects(c.rounds[2]) by {
      RoundsAre(t, envs, self, p);
    }
    Delivery.ExpectedInThree(p, s, c, m);
    if id != self {
      assert First(t, envs, id).broadcast && Second(t, envs, id).broadcast by { Headers(t, envs, id, self); }
    }
    assert id in Delivery.Others(s) <==> id in t.ids && id != self;
  }

  // -------------------------------------------------------------------- the result

  /**
    However the messages of honest signers are delivered, in any order and with any repetitions: the run ends with
    a signature that verifies, except that with Taproot a group commitment that is the identity leaves an error.
   */
  lemma HonestSigning(t: Terms, F: seq<Point>, envs: ID -> Env, self: ID, p: Protocol, ms: seq<Message>)
    requires FullCodec() && Company(t, F, envs) && Runs(t, envs, self, p)
    requires forall m :: m in ms <==> SentTo(t, envs, self, m)
    ensures Bounded(p, Of(t, self))
    ensures var st := Run(p, Of(t, self), R1, ms);
            if Hopeless(t, envs) then st.err.Some? && st.result.None?
            else st.err.None? && st.result.Some? && st.result.value.Signature? &&
                 Verified(envs(self), Challenge(t, envs).R, st.result.value.signature)
  {
    var c, s := ScriptOf(t, envs, self), Of(t, self);
    SignShape(envs(self), p, s, t.hash, t.session);
    HonestScript(t, F, envs, self, p);
    HonestResult(t, F, envs, self);
    ScriptIs(t, envs, self);
    hide Run, ScriptOf, Company, FullCodec, Runs, SentTo, Delivery.Valid, Verified, EndOf, Challenge, Hopeless;
    forall m ensures m in ms <==> Delivery.Expected(p, s, c, m) {
      ExpectedIs(t, envs, self, p, m);
    }
    Delivery.AllDelivered(p, s, c, ms);
  }

  /** Whatever order of delivery each of them sees: all signers end with one signature, or none does. */
  lemma HonestAgreement(t: Terms, F: seq<Point>, envs: ID -> Env, i: ID, j: ID, p: Protocol, q: Protocol,
                        mi: seq<Message>, mj: seq<Message>)
    requires FullCodec() && Company(t, F, envs) && Runs(t, envs, i, p) && Runs(t, envs, j, q)
    requires forall m :: m in mi <==> SentTo(t, envs, i, m)
    requires forall m :: m in mj <==> SentTo(t, envs, j, m)
    ensures Bounded(p, Of(t, i)) && Bounded(q, Of(t, j))
    ensures Run(p, Of(t, i), R1, mi).result == Run(q, Of(t, j), R1, mj).result
  {
    hide Run, Company, FullCodec, SentTo, IsSigning, Verified, Challenge, GoodEnv, Hopeless;
    HonestSigning(t, F, envs, i, p, mi);
    HonestSigning(t, F, envs, j, q, mj);
    MemberFacts(t, F, envs, i);
    MemberFacts(t, F, envs, j);
    if !Hopeless(t, envs) {
      OneSignature(envs(i), envs(j), Challenge(t, envs).R, Run(p, Of(t, i), R1, mi).result.value.signature,
                   Run(q, Of(t, j), R1, mj).result.value.signature);
    }
  }
}
