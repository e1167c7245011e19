/**
  Networks of honest parties that run FROST: key generation, refresh and signing do not come to rest before everybody
  has the key or the signature, and all of them agree.
 */
module FrostNetwork {
  import opened Zq
  import opened Party
  import opened Handler
  import opened HandlerRuns
  import opened HandlerStorage
  import opened Rounds
  import opened Delivery
  import opened Network
  import K = FrostKeygen
  import KR = FrostKeygenRuns
  import KH = FrostKeygenHonest
  import SR = FrostSignRuns
  import SH = FrostSignHonest

  // --------------------------------------------------------------------- key generation

  ghost function KeygenNode(t: KH.Terms, envs: ID -> KR.Env, p: Protocol, id: ID): Node {
    Node(p, KH.Of(t, id), KH.ScriptOf(t, envs, id))
  }

  ghost function KeygenNodes(t: KH.Terms, envs: ID -> KR.Env, ps: ID -> Protocol): ID -> Node {
    (id: ID) => KeygenNode(t, envs, ps(id), id)
  }

  /** Every party of the session is honest and runs key generation. */
  ghost predicate AllKeygen(t: KH.Terms, prior: seq<Point>, envs: ID -> KR.Env, ps: ID -> Protocol) {
    && KH.FullCodec() && KH.Company(t, prior, envs) && t.ids != []
    && forall id :: id in t.ids ==> KH.Runs(t, envs, id, ps(id))
  }

  lemma {:induction false} RemoveMembers(ids: seq<ID>, id: ID, k: ID)
    ensures k in KR.Remove(ids, id) <==> k in ids && k != id
  {
    if |ids| != 0 {
      RemoveMembers(ids[1..], id, k);
    }
  }

  lemma KeygenSentFirst(t: KH.Terms, envs: ID -> KR.Env, p: Protocol, a: ID, m: Message)
    requires KH.Runs(t, envs, a, p)
    ensures var n := KeygenNode(t, envs, p, a);
            |n.c.rounds| == |n.c.sent| == 3 && (SentAt(n, 1, m) <==> m == KH.First(t, envs, a))
  {
    hide KH.ScriptOf, KH.Runs, KH.Out1, Carried;
    var n, o := KeygenNode(t, envs, p, a), KH.Out1(envs(a));
    assert |n.c.rounds| == |n.c.sent| == 3 && n.c.sent[0] == [o] by { KH.ScriptIs(t, envs, a); }
    assert Carried(p, n.s, n.c, 1) == None by { KH.CarriedHashes(t, envs, a, p); }
    var all := AddressAll(n.s, n.c.sent[0], None);
    assert |all| == 1 && all[0] == KH.First(t, envs, a);
  }

  lemma KeygenSentSecond(t: KH.Terms, envs: ID -> KR.Env, p: Protocol, a: ID, b: ID, m: Message)
    requires KH.Runs(t, envs, a, p) && b in t.ids && a != b
    ensures var n := KeygenNode(t, envs, p, a);
            && |n.c.rounds| == |n.c.sent| == 3
            && (SentAt(n, 2, m) && IsFor(m, b) <==> m == KH.Second(t, envs, a) || m == KH.Share(t, envs, a, b))
  {
    hide KH.ScriptOf, KH.Runs, KH.Out2, KH.Echoed2, KR.ShareMessages, KR.Remove, Carried;
    var n, v := KeygenNode(t, envs, p, a), Some(KH.Echoed2(t, envs));
    var o, to := KH.Out2(envs(a)), KR.Remove(t.ids, a);
    var shares := KR.ShareMessages(envs(a), to);
    assert |n.c.rounds| == |n.c.sent| == 3 && n.c.sent[1] == [o] + shares by { KH.ScriptIs(t, envs, a); }
    assert Carried(p, n.s, n.c, 2) == v by { KH.CarriedHashes(t, envs, a, p); }
    var all := AddressAll(n.s, n.c.sent[1], v);
    assert all[0] == KH.Second(t, envs, a);
    forall k | 0 <= k < |to| ensures all[k + 1] == KH.Share(t, envs, a, to[k]) {
      ShareAt(envs(a), to, k);
    }
    KeygenAddressed(t, envs, a, b);
    RemoveMembers(t.ids, a, b);
    if SentAt(n, 2, m) && IsFor(m, b) {
      var k :| 0 <= k < |all| && all[k] == m;
      if k > 0 {
        KeygenAddressed(t, envs, a, to[k - 1]);
      }
    }
    if m == KH.Share(t, envs, a, b) {
      var k :| 0 <= k < |to| && to[k] == b;
      assert all[k + 1] == m;
    }
  }

  lemma ShareAt(e: KR.Env, to: seq<ID>, k: nat)
    requires k < |to|
    ensures KR.ShareMessages(e, to)[k] == KH.ShareTo(e, to[k])
  {
  }

  lemma KeygenAddressed(t: KH.Terms, envs: ID -> KR.Env, a: ID, b: ID)
    ensures KH.Share(t, envs, a, b).to == Some(b) && KH.Share(t, envs, a, b).from == a
    ensures KH.Second(t, envs, a).to == None && KH.Second(t, envs, a).from == a
    ensures KH.First(t, envs, a).to == None && KH.First(t, envs, a).from == a
  {
    hide KH.Echoed2, KR.Own, KR.OwnBroadcast, KH.Sigma;
  }

  lemma KeygenExpected(t: KH.Terms, envs: ID -> KR.Env, p: Protocol, a: ID, b: ID, m: Message)
    requires KH.Runs(t, envs, b, p) && a in t.ids && a != b && m.from == a
    ensures var n := KeygenNode(t, envs, p, b);
            && (ExpectedAt(p, n.s, n.c, 1, m) <==> m == KH.First(t, envs, a))
            && (ExpectedAt(p, n.s, n.c, 2, m) <==> m == KH.Second(t, envs, a) || m == KH.Share(t, envs, a, b))
  {
    hide KH.ScriptOf, KH.First, KH.Second, KH.Share, KH.Runs, KH.LastRound, KH.Out1, KH.Out2, KH.ShareTo, KH.Unused;
    var n := KeygenNode(t, envs, p, b);
    var c, h := n.c, KH.LastRound(t, envs, b);
    assert |c.rounds| == 3 && c.rounds[1] == KR.R2 && c.rounds[2] == h && c.b(1, a) == KH.First(t, envs, a)
        && c.b(2, a) == KH.Second(t, envs, a) && c.m(2, a) == KH.Share(t, envs, a, b) by {
      KH.ScriptIs(t, envs, b);
    }
    assert p.isBroadcast(KR.R2) && p.isBroadcast(h) && !p.expects(KR.R2) && p.expects(h) by {
      KH.RoundsAre(t, envs, b, p);
    }
    assert KH.First(t, envs, a).broadcast && KH.Second(t, envs, a).broadcast && !KH.Share(t, envs, a, b).broadcast by {
      KH.Headers(t, envs, b, a);
    }
    assert a in Others(n.s);
  }

  lemma KeygenMatchAt(t: KH.Terms, envs: ID -> KR.Env, p: Protocol, q: Protocol, a: ID, b: ID, k: nat, m: Message)
    requires KH.Runs(t, envs, a, p) && KH.Runs(t, envs, b, q) && a in t.ids && b in t.ids && a != b && 0 < k < 3
    ensures var n, o := KeygenNode(t, envs, p, a), KeygenNode(t, envs, q, b);
            && |n.c.rounds| == |n.c.sent| == 3
            && (SentAt(n, k, m) && IsFor(m, b) <==> m.from == a && ExpectedAt(q, o.s, o.c, k, m))
  {
    hide KH.Runs, KH.ScriptOf, KH.First, KH.Second, KH.Share, SentAt, ExpectedAt;
    KeygenAddressed(t, envs, a, b);
    if k == 1 {
      KeygenSentFirst(t, envs, p, a, m);
    } else {
      KeygenSentSecond(t, envs, p, a, b, m);
    }
    if m.from == a {
      KeygenExpected(t, envs, q, a, b, m);
    }
  }

  lemma KeygenMatches(t: KH.Terms, envs: ID -> KR.Env, p: Protocol, q: Protocol, a: ID, b: ID, k: nat)
    requires KH.Runs(t, envs, a, p) && KH.Runs(t, envs, b, q) && a in t.ids && b in t.ids && a != b && 0 < k < 3
    ensures var n := KeygenNode(t, envs, p, a);
            |n.c.rounds| == |n.c.sent| == 3 && Matches(n, KeygenNode(t, envs, q, b), k)
  {
    hide KH.Runs, KH.ScriptOf, SentAt, ExpectedAt, IsFor;
    var n, o := KeygenNode(t, envs, p, a), KeygenNode(t, envs, q, b);
    assert |n.c.rounds| == |n.c.sent| == 3 by { KH.ScriptIs(t, envs, a); }
    forall m ensures SentAt(n, k, m) && IsFor(m, o.s.self) <==> m.from == n.s.self && ExpectedAt(o.p, o.s, o.c, k, m) {
      KeygenMatchAt(t, envs, p, q, a, b, k, m);
    }
  }

  lemma KeygenGood(t: KH.Terms, prior: seq<Point>, envs: ID -> KR.Env, p: Protocol, id: ID)
    requires KH.FullCodec() && KH.Company(t, prior, envs) && KH.Runs(t, envs, id, p)
    ensures GoodNode(t.ids, KeygenNode(t, envs, p, id), id, 3)
    ensures KeygenNode(t, envs, p, id).c.end == Success(Key(KH.HonestKey(t, envs, id)))
  {
    KR.KeygenShape(envs(id), p, KH.Of(t, id), t.hash, t.session);
    KH.HonestScript(t, prior, envs, id, p);
    KH.ScriptIs(t, envs, id);
    hide KH.ScriptOf, Valid, Sane, KH.FullCodec, KH.Company, KH.Runs;
  }

  /** The executions of honest parties fit together. */
  lemma KeygenFits(t: KH.Terms, prior: seq<Point>, envs: ID -> KR.Env, ps: ID -> Protocol)
    requires AllKeygen(t, prior, envs, ps)
    ensures Fits(t.ids, KeygenNodes(t, envs, ps), 3)
  {
    hide KH.FullCodec, KH.Company, KH.Runs, GoodNode, Matches, KeygenNode;
    var nodes := KeygenNodes(t, envs, ps);
    forall id | id in t.ids ensures GoodNode(t.ids, nodes(id), id, 3) {
      KeygenGood(t, prior, envs, ps(id), id);
    }
    forall a, b, k | a in t.ids && b in t.ids && a != b && 0 < k < 3
      ensures |nodes(a).c.rounds| == |nodes(a).c.sent| == 3 && Matches(nodes(a), nodes(b), k)
    {
      KeygenMatches(t, envs, ps(a), ps(b), a, b, k);
    }
  }

  /**
    A network of honest parties that make or refresh a key: in every possible run, whatever the order of delivery, no
    party has an error; and at rest every two parties hold keys that fit together.
   */
  lemma KeygenNetwork(t: KH.Terms, prior: seq<Point>, envs: ID -> KR.Env, ps: ID -> Protocol, trace: seq<Handover>,
                      i: ID, j: ID)
    requires AllKeygen(t, prior, envs, ps) && i in t.ids && j in t.ids
    ensures Fits(t.ids, KeygenNodes(t, envs, ps), 3)
    ensures var nodes := KeygenNodes(t, envs, ps);
            Possible(t.ids, nodes, 3, trace) ==>
              var a, b := StateOf(nodes(i), trace), StateOf(nodes(j), trace);
              && a.err.None?
              && (AtRest(t.ids, nodes, 3, trace) ==>
                    && a.result.Some? && a.result.value.Key? && b.result.Some? && b.result.value.Key?
                    && KR.Agree(i, a.result.value.key, j, b.result.value.key, t.ids, t.threshold))
  {
    KeygenFits(t, prior, envs, ps);
    var nodes := KeygenNodes(t, envs, ps);
    KeygenGood(t, prior, envs, ps(i), i);
    KeygenGood(t, prior, envs, ps(j), j);
    KeygenAgrees(t, prior, envs, i, j);
    hide KH.FullCodec, KH.Company, KH.Runs, KH.HonestKey, KR.Agree, Fits, KeygenNode, StateOf, AllKeygen;
    if Possible(t.ids, nodes, 3, trace) {
      NetworkSafe(t.ids, nodes, 3, trace, i);
      if AtRest(t.ids, nodes, 3, trace) {
        NetworkEnds(t.ids, nodes, 3, trace, i);
        NetworkEnds(t.ids, nodes, 3, trace, j);
      }
    }
  }

  lemma KeygenAgrees(t: KH.Terms, prior: seq<Point>, envs: ID -> KR.Env, i: ID, j: ID)
    requires KH.FullCodec() && KH.Company(t, prior, envs) && i in t.ids && j in t.ids
    ensures KR.Agree(i, KH.HonestKey(t, envs, i), j, KH.HonestKey(t, envs, j), t.ids, t.threshold)
  {
    hide KH.FullCodec, KH.Company, KH.HonestKey, KR.Agree, K.Finished, K.Outcome, K.OneLength, KH.Phi;
    KH.HonestResult(t, prior, envs, i);
    KH.HonestResult(t, prior, envs, j);
    KR.OnePolynomialAgrees(i, KH.HonestKey(t, envs, i), j, KH.HonestKey(t, envs, j), t.ids, t.threshold, t.taproot,
                           K.Outcome(KH.Phi(t, envs), t.ids, prior));
  }

  // --------------------------------------------------------------------------- signing

  ghost function SignNode(t: SH.Terms, envs: ID -> SR.Env, p: Protocol, id: ID): Node {
    Node(p, SH.Of(t, id), SH.ScriptOf(t, envs, id))
  }

  ghost function SignNodes(t: SH.Terms, envs: ID -> SR.Env, ps: ID -> Protocol): ID -> Node {
    (id: ID) => SignNode(t, envs, ps(id), id)
  }

  /** Every signer is honest and runs signing, and there is a signature to be made. */
  ghost predicate AllSign(t: SH.Terms, F: seq<Point>, envs: ID -> SR.Env, ps: ID -> Protocol) {
    && SH.FullCodec() && SH.Company(t, F, envs) && t.ids != [] && !SH.Hopeless(t, envs)
    && forall id :: id in t.ids ==> SH.Runs(t, envs, id, ps(id))
  }

  lemma SignSent(t: SH.Terms, envs: ID -> SR.Env, p: Protocol, a: ID, k: nat, m: Message)
    requires SH.Runs(t, envs, a, p) && 0 < k < 3
    ensures var n := SignNode(t, envs, p, a);
            && |n.c.rounds| == |n.c.sent| == 3
            && (SentAt(n, k, m) <==> m == if k == 1 then SH.First(t, envs, a) else SH.Second(t, envs, a))
  {
    hide SH.ScriptOf, SH.Runs, SH.Out1, SH.Out2, SH.Echoed2, Carried;
    var n := SignNode(t, envs, p, a);
    var o := if k == 1 then SH.Out1(envs(a)) else SH.Out2(t, envs, a);
    var v := if k == 1 then None else Some(SH.Echoed2(t, envs));
    assert |n.c.rounds| == |n.c.sent| == 3 && n.c.sent[k - 1] == [o] by { SH.ScriptIs(t, envs, a); }
    assert Carried(p, n.s, n.c, k) == v by { SH.CarriedHashes(t, envs, a, p); }
    var all := AddressAll(n.s, n.c.sent[k - 1], v);
    assert |all| == 1 && all[0] == if k == 1 then SH.First(t, envs, a) else SH.Second(t, envs, a);
  }

  lemma SignWaits(t: SH.Terms, envs: ID -> SR.Env, p: Protocol, a: ID, b: ID, k: nat)
    requires SH.Runs(t, envs, b, p) && a in t.ids && a != b && 0 < k < 3
    ensures var n := SignNode(t, envs, p, b);
            && |n.c.rounds| == 3 && a in Others(n.s) && p.isBroadcast(n.c.rounds[k]) && !p.expects(n.c.rounds[k])
            && n.c.b(k, a) == (if k == 1 then SH.First(t, envs, a) else SH.Second(t, envs, a)) && n.c.b(k, a).broadcast
  {
    hide SH.ScriptOf, SH.First, SH.Second, SH.Runs, SH.LastRound, SH.Out1, SH.Out2, SH.Unused, SH.Echoed2;
    SH.ScriptIs(t, envs, b);
    assert p.isBroadcast(SR.R2) && p.isBroadcast(SH.LastRound(t, envs, b)) by { SH.RoundsAre(t, envs, b, p); }
    assert !p.expects(SR.R2) && !p.expects(SH.LastRound(t, envs, b)) by { SH.RoundsAre(t, envs, b, p); }
    assert SH.First(t, envs, a).broadcast && SH.Second(t, envs, a).broadcast by { SH.Headers(t, envs, a, b); }
  }

  lemma SignExpected(t: SH.Terms, envs: ID -> SR.Env, p: Protocol, a: ID, b: ID, k: nat, m: Message)
    requires SH.Runs(t, envs, b, p) && a in t.ids && a != b && m.from == a && 0 < k < 3
    ensures var n := SignNode(t, envs, p, b);
            ExpectedAt(p, n.s, n.c, k, m) <==> m == if k == 1 then SH.First(t, envs, a) else SH.Second(t, envs, a)
  {
    hide SH.ScriptOf, SH.First, SH.Second, SH.Runs, Others;
    SignWaits(t, envs, p, a, b, k);
  }

  lemma SignMatchAt(t: SH.Terms, envs: ID -> SR.Env, p: Protocol, q: Protocol, a: ID, b: ID, k: nat, m: Message)
    requires SH.Runs(t, envs, a, p) && SH.Runs(t, envs, b, q) && a in t.ids && b in t.ids && a != b && 0 < k < 3
    ensures var n, o := SignNode(t, envs, p, a), SignNode(t, envs, q, b);
            && |n.c.rounds| == |n.c.sent| == 3
            && (SentAt(n, k, m) && IsFor(m, b) <==> m.from == a && ExpectedAt(q, o.s, o.c, k, m))
  {
    hide SH.Runs, SH.ScriptOf, SH.First, SH.Second, SH.Unused, SH.Out1, SH.Out2, SH.Echoed2, SentAt, ExpectedAt;
    SH.Headers(t, envs, a, b);
    SignSent(t, envs, p, a, k, m);
    if m.from == a {
      SignExpected(t, envs, q, a, b, k, m);
    }
  }

  lemma SignMatches(t: SH.Terms, envs: ID -> SR.Env, p: Protocol, q: Protocol, a: ID, b: ID, k: nat)
    requires SH.Runs(t, envs, a, p) && SH.Runs(t, envs, b, q) && a in t.ids && b in t.ids && a != b && 0 < k < 3
    ensures var n := SignNode(t, envs, p, a);
            |n.c.rounds| == |n.c.sent| == 3 && Matches(n, SignNode(t, envs, q, b), k)
  {
    hide SH.Runs, SH.ScriptOf, SentAt, ExpectedAt, IsFor;
    var n, o := SignNode(t, envs, p, a), SignNode(t, envs, q, b);
    assert |n.c.rounds| == |n.c.sent| == 3 by { SH.ScriptIs(t, envs, a); }
    forall m ensures SentAt(n, k, m) && IsFor(m, o.s.self) <==> m.from == n.s.self && ExpectedAt(o.p, o.s, o.c, k, m) {
      SignMatchAt(t, envs, p, q, a, b, k, m);
    }
  }

  lemma SignGood(t: SH.Terms, F: seq<Point>, envs: ID -> SR.Env, p: Protocol, id: ID)
    requires SH.FullCodec() && SH.Company(t, F, envs) && SH.Runs(t, envs, id, p) && !SH.Hopeless(t, envs)
    ensures var n := SignNode(t, envs, p, id);
            GoodNode(t.ids, n, id, 3) && SH.GoodEnd(t, envs, id, n.c.end)
  {
    SR.SignShape(envs(id), p, SH.Of(t, id), t.hash, t.session);
    SH.HonestScript(t, F, envs, id, p);
    SH.HonestResult(t, F, envs, id);
    SH.ScriptIs(t, envs, id);
    hide SH.ScriptOf, Valid, Sane, SH.FullCodec, SH.Company, SH.Runs, SH.EndOf, SH.Hopeless;
  }

  lemma SignFits(t: SH.Terms, F: seq<Point>, envs: ID -> SR.Env, ps: ID -> Protocol)
    requires AllSign(t, F, envs, ps)
    ensures Fits(t.ids, SignNodes(t, envs, ps), 3)
  {
    hide SH.FullCodec, SH.Company, SH.Runs, SH.Hopeless, GoodNode, Matches, SignNode;
    var nodes := SignNodes(t, envs, ps);
    forall id | id in t.ids ensures GoodNode(t.ids, nodes(id), id, 3) {
      SignGood(t, F, envs, ps(id), id);
    }
    forall a, b, k | a in t.ids && b in t.ids && a != b && 0 < k < 3
      ensures |nodes(a).c.rounds| == |nodes(a).c.sent| == 3 && Matches(nodes(a), nodes(b), k)
    {
      SignMatches(t, envs, ps(a), ps(b), a, b, k);
    }
  }

  /**
    A network of honest signers: in every possible run no signer has an error; and at rest all signers hold the same
    signature, which verifies.
   */
  lemma SignNetwork(t: SH.Terms, F: seq<Point>, envs: ID -> SR.Env, ps: ID -> Protocol, trace: seq<Handover>, i: ID, j: ID)
    requires AllSign(t, F, envs, ps) && i in t.ids && j in t.ids
    ensures Fits(t.ids, SignNodes(t, envs, ps), 3)
    ensures var nodes := SignNodes(t, envs, ps);
            Possible(t.ids, nodes, 3, trace) ==>
              var a, b := StateOf(nodes(i), trace), StateOf(nodes(j), trace);
              && a.err.None?
              && (AtRest(t.ids, nodes, 3, trace) ==>
                    && a.result.Some? && a.result.value.Signature? && a.result == b.result
                    && SR.Verified(envs(i), SH.Challenge(t, envs).R, a.result.value.signature))
  {
    SignFits(t, F, envs, ps);
    var nodes := SignNodes(t, envs, ps);
    SignGood(t, F, envs, ps(i), i);
    SignGood(t, F, envs, ps(j), j);
    SH.MemberFacts(t, F, envs, i);
    SH.MemberFacts(t, F, envs, j);
    hide SH.FullCodec, SH.Company, SH.Runs, Fits, SignNode, StateOf, AllSign, SR.Verified, SH.Challenge, SH.Hopeless,
      SR.GoodEnv, GoodNode;
    if Possible(t.ids, nodes, 3, trace) {
      NetworkSafe(t.ids, nodes, 3, trace, i);
      if AtRest(t.ids, nodes, 3, trace) {
        NetworkEnds(t.ids, nodes, 3, trace, i);
        NetworkEnds(t.ids, nodes, 3, trace, j);
        SR.OneSignature(envs(i), envs(j), SH.Challenge(t, envs).R, nodes(i).c.end.value.signature,
                        nodes(j).c.end.value.signature);
      }
    }
  }
}
