/**
  A network of handlers that all follow the protocol: whatever each of them sends is handed over to the others in any
  order, any number of times, at any time. No party ever fails, and the network does not come to rest before all of
  them have the result.
 */
module Network {
  import opened Party
  import opened Handler
  import opened HandlerRuns
  import opened HandlerStorage
  import opened Delivery

  /** One party, with its own undisturbed execution. */
  datatype Node = Node(p: Protocol, s: Session, c: Script)

  /** What a node sends when it enters round k of its execution. */
  ghost predicate SentAt(n: Node, k: nat, m: Message)
    requires 0 < k < |n.c.rounds| == |n.c.sent|
  {
    m in AddressAll(n.s, n.c.sent[k - 1], Carried(n.p, n.s, n.c, k))
  }

  ghost predicate GoodNode(ids: seq<ID>, n: Node, id: ID, rounds: nat) {
    && Valid(n.p, n.s, n.c) && Sane(n.p, n.s) && n.s.self == id && n.s.parties == ids && n.c.end.Success?
    && |n.c.rounds| == |n.c.sent| == rounds && n.c.sent[rounds - 1] == []
  }

  /** What one node sends to another in a round is what the other waits for in that round. */
  ghost predicate Matches(a: Node, b: Node, k: nat)
    requires 0 < k < |a.c.rounds| == |a.c.sent|
  {
    forall m :: SentAt(a, k, m) && IsFor(m, b.s.self) <==> m.from == a.s.self && ExpectedAt(b.p, b.s, b.c, k, m)
  }

  /** Executions that fit together. */
  ghost predicate Fits(ids: seq<ID>, nodes: ID -> Node, rounds: nat) {
    && rounds > 0 && (forall id :: id in ids ==> GoodNode(ids, nodes(id), id, rounds))
    && forall a, b, k :: a in ids && b in ids && a != b && 0 < k < rounds ==> Matches(nodes(a), nodes(b), k)
  }

  // ---------------------------------------------------------------------- traces

  datatype Handover = Handover(to: ID, m: Message)

  /** What has been handed over to one party, in order. */
  ghost function Inbox(trace: seq<Handover>, id: ID): seq<Message> {
    if |trace| == 0 then []
    else Inbox(trace[..|trace| - 1], id) + if trace[|trace| - 1].to == id then [trace[|trace| - 1].m] else []
  }

  ghost function StateOf(n: Node, trace: seq<Handover>): State
    requires Bounded(n.p, n.s) && |n.c.rounds| > 0
  {
    Run(n.p, n.s, n.c.rounds[0], Inbox(trace, n.s.self))
  }

  /** Every message was handed over to somebody it is for, after another party had sent it. */
  ghost predicate Possible(ids: seq<ID>, nodes: ID -> Node, rounds: nat, trace: seq<Handover>)
    requires Fits(ids, nodes, rounds)
  {
    |trace| == 0 ||
    (var before, last := trace[..|trace| - 1], trace[|trace| - 1];
     && Possible(ids, nodes, rounds, before) && last.to in ids
     && exists j :: j in ids && j != last.to && last.m in StateOf(nodes(j), before).out && IsFor(last.m, last.to))
  }

  /** Everything that was sent has been handed over to everybody it is for. */
  ghost predicate AtRest(ids: seq<ID>, nodes: ID -> Node, rounds: nat, trace: seq<Handover>)
    requires Fits(ids, nodes, rounds)
  {
    forall i, j, m :: i in ids && j in ids && i != j && m in StateOf(nodes(j), trace).out && IsFor(m, i) ==>
      m in Inbox(trace, i)
  }

  // ---------------------------------------------------------------------- safety

  /** Where a message that has gone out comes from. */
  lemma {:induction false} SentFrom(n: Node, i: nat, m: Message) returns (k: nat)
    requires |n.c.rounds| == |n.c.sent| > 0 && n.c.sent[|n.c.sent| - 1] == [] && i <= |n.c.rounds|
    requires m in SentUpTo(n.p, n.s, n.c, i)
    ensures 0 < k <= i && k < |n.c.rounds| && SentAt(n, k, m)
  {
    if m in SentUpTo(n.p, n.s, n.c, i - 1) {
      k := SentFrom(n, i - 1, m);
    } else {
      k := i;
    }
  }

  /** What is sent on entering a round has gone out from then on. */
  lemma {:induction false} SentSince(n: Node, k: nat, i: nat, m: Message)
    requires 0 < k < |n.c.rounds| == |n.c.sent| && k <= i <= |n.c.rounds| && SentAt(n, k, m)
    ensures m in SentUpTo(n.p, n.s, n.c, i)
  {
    if k < i {
      SentSince(n, k, i - 1, m);
    }
  }

  /** A party that has been given what its execution waits for is where the execution says. */
  lemma NodeReached(ids: seq<ID>, n: Node, id: ID, rounds: nat, trace: seq<Handover>)
    requires rounds > 0 && GoodNode(ids, n, id, rounds) && forall m :: m in Inbox(trace, id) ==> Expected(n.p, n.s, n.c, m)
    ensures Reached(n.p, n.s, n.c, StateOf(n, trace), SetOf(Inbox(trace, id)))
  {
    hide Valid, Expected, Run, Reached, Inbox;
    RunReaches(n.p, n.s, n.c, Inbox(trace, id));
  }

  lemma OutFrom(ids: seq<ID>, n: Node, id: ID, rounds: nat, trace: seq<Handover>, m: Message) returns (k: nat)
    requires rounds > 0 && GoodNode(ids, n, id, rounds) && m in StateOf(n, trace).out
    requires Reached(n.p, n.s, n.c, StateOf(n, trace), SetOf(Inbox(trace, id)))
    ensures 0 < k < rounds && SentAt(n, k, m)
  {
    hide Valid, SentUpTo, SentAt, Queued, HashesAre, Storage, Settled, Closing, Whole, CompleteBelow, HasRound, Run, Inbox;
    var st, d := StateOf(n, trace), SetOf(Inbox(trace, id));
    if Ended(n.p, n.s, n.c, st, d) {
      k := SentFrom(n, rounds, m);
    } else {
      var i: nat :| WaitsIn(n.p, n.s, n.c, st, i, d);
      k := SentFrom(n, i, m);
    }
  }

  /** In every possible run of the network everybody gets only what its execution waits for. */
  lemma {:induction false} InboxExpected(ids: seq<ID>, nodes: ID -> Node, rounds: nat, trace: seq<Handover>)
    requires Fits(ids, nodes, rounds) && Possible(ids, nodes, rounds, trace)
    ensures forall id, m :: id in ids && m in Inbox(trace, id) ==> Expected(nodes(id).p, nodes(id).s, nodes(id).c, m)
  {
    hide Possible, Fits, Expected, StateOf, GoodNode;
    if |trace| != 0 {
      var before, last := trace[..|trace| - 1], trace[|trace| - 1];
      var j := SenderOf(ids, nodes, rounds, trace);
      InboxExpected(ids, nodes, rounds, before);
      LastExpected(ids, nodes, rounds, before, last, j);
      forall id, m | id in ids && m in Inbox(trace, id) ensures Expected(nodes(id).p, nodes(id).s, nodes(id).c, m) {
        assert m in Inbox(before, id) || (id == last.to && m == last.m);
      }
    }
  }

  lemma SenderOf(ids: seq<ID>, nodes: ID -> Node, rounds: nat, trace: seq<Handover>) returns (j: ID)
    requires Fits(ids, nodes, rounds) && Possible(ids, nodes, rounds, trace) && |trace| > 0
    ensures var before, last := trace[..|trace| - 1], trace[|trace| - 1];
            && Possible(ids, nodes, rounds, before) && last.to in ids && j in ids && j != last.to
            && GoodNode(ids, nodes(j), j, rounds) && last.m in StateOf(nodes(j), before).out && IsFor(last.m, last.to)
  {
    hide Matches, Valid, StateOf;
    var before, last := trace[..|trace| - 1], trace[|trace| - 1];
    j :| j in ids && j != last.to && last.m in StateOf(nodes(j), before).out && IsFor(last.m, last.to);
  }

  lemma LastExpected(ids: seq<ID>, nodes: ID -> Node, rounds: nat, before: seq<Handover>, last: Handover, j: ID)
    requires Fits(ids, nodes, rounds) && j in ids && last.to in ids && j != last.to
    requires forall id, m :: id in ids && m in Inbox(before, id) ==> Expected(nodes(id).p, nodes(id).s, nodes(id).c, m)
    requires last.m in StateOf(nodes(j), before).out && IsFor(last.m, last.to)
    ensures Expected(nodes(last.to).p, nodes(last.to).s, nodes(last.to).c, last.m)
  {
    var n, to := nodes(j), nodes(last.to);
    assert GoodNode(ids, n, j, rounds) && GoodNode(ids, to, last.to, rounds);
    hide Valid, Reached, Run, Inbox, ExpectedAt, SentAt, Sane;
    NodeReached(ids, n, j, rounds, before);
    var k := OutFrom(ids, n, j, rounds, before, last.m);
    assert Matches(n, to, k);
    assert ExpectedAt(to.p, to.s, to.c, k, last.m);
  }

  /** Safety: in every possible run no party has an error, and a result is the one of its execution. */
  lemma NetworkSafe(ids: seq<ID>, nodes: ID -> Node, rounds: nat, trace: seq<Handover>, id: ID)
    requires Fits(ids, nodes, rounds) && Possible(ids, nodes, rounds, trace) && id in ids
    ensures Reached(nodes(id).p, nodes(id).s, nodes(id).c, StateOf(nodes(id), trace), SetOf(Inbox(trace, id)))
    ensures var st := StateOf(nodes(id), trace);
            st.err.None? && (st.result.None? || st.result == Some(nodes(id).c.end.value))
  {
    InboxExpected(ids, nodes, rounds, trace);
    assert GoodNode(ids, nodes(id), id, rounds);
    hide Possible, Fits, Valid, Expected, Inbox, Run, SentUpTo, Queued, HashesAre, Storage, Settled, Closing, Whole;
    NodeReached(ids, nodes(id), id, rounds, trace);
  }

  // -------------------------------------------------------------------- progress

  /** The party has got through all rounds below k. */
  ghost predicate Through(n: Node, trace: seq<Handover>, k: nat)
    requires Bounded(n.p, n.s) && |n.c.rounds| > 0
  {
    var st, d := StateOf(n, trace), SetOf(Inbox(trace, n.s.self));
    Ended(n.p, n.s, n.c, st, d) || exists i: nat :: i >= k && WaitsIn(n.p, n.s, n.c, st, i, d)
  }

  /** A party that is through the rounds below k has sent what the others wait for in round k. */
  lemma ThroughSent(ids: seq<ID>, n: Node, id: ID, rounds: nat, trace: seq<Handover>, k: nat, m: Message)
    requires 0 < k < rounds && GoodNode(ids, n, id, rounds) && Through(n, trace, k) && SentAt(n, k, m)
    ensures m in StateOf(n, trace).out
  {
    hide Valid, SentUpTo, SentAt, Queued, HashesAre, Storage, Settled, Closing, Whole, CompleteBelow, HasRound, Run, Inbox;
    var st, d := StateOf(n, trace), SetOf(Inbox(trace, id));
    if Ended(n.p, n.s, n.c, st, d) {
      SentSince(n, k, rounds, m);
    } else {
      var i: nat :| i >= k && WaitsIn(n.p, n.s, n.c, st, i, d);
      SentSince(n, k, i, m);
    }
  }

  /** At rest, what a party waits for in a round that all others have entered has been handed over. */
  lemma RoundArrived(ids: seq<ID>, nodes: ID -> Node, rounds: nat, trace: seq<Handover>, id: ID, k: nat)
    requires Fits(ids, nodes, rounds) && AtRest(ids, nodes, rounds, trace) && id in ids && k < rounds
    requires forall j :: j in ids ==> Through(nodes(j), trace, k)
    ensures HasRound(nodes(id).p, nodes(id).s, nodes(id).c, k, SetOf(Inbox(trace, id)))
  {
    var n := nodes(id);
    assert GoodNode(ids, n, id, rounds);
    SetOfMembers(Inbox(trace, id));
    if k > 0 {
      forall j | j in Others(n.s)
        ensures n.p.isBroadcast(n.c.rounds[k]) ==> n.c.b(k, j) in Inbox(trace, id)
        ensures n.p.expects(n.c.rounds[k]) ==> n.c.m(k, j) in Inbox(trace, id)
      {
        ExpectedFrom(n, k, j);
        if n.p.isBroadcast(n.c.rounds[k]) {
          Arrived(ids, nodes, rounds, trace, id, k, j, n.c.b(k, j));
        }
        if n.p.expects(n.c.rounds[k]) {
          Arrived(ids, nodes, rounds, trace, id, k, j, n.c.m(k, j));
        }
      }
    }
  }

  lemma ExpectedFrom(n: Node, k: nat, j: ID)
    requires Valid(n.p, n.s, n.c) && 0 < k < |n.c.rounds| && j in Others(n.s)
    ensures n.c.b(k, j).from == n.c.m(k, j).from == j
    ensures n.p.isBroadcast(n.c.rounds[k]) ==> ExpectedAt(n.p, n.s, n.c, k, n.c.b(k, j))
    ensures n.p.expects(n.c.rounds[k]) ==> ExpectedAt(n.p, n.s, n.c, k, n.c.m(k, j))
  {
    hide ValidStep;
    assert ValidRound(n.p, n.s, n.c, k);
  }

  lemma Arrived(ids: seq<ID>, nodes: ID -> Node, rounds: nat, trace: seq<Handover>, id: ID, k: nat, j: ID, m: Message)
    requires Fits(ids, nodes, rounds) && AtRest(ids, nodes, rounds, trace) && id in ids && j in ids && j != id
    requires 0 < k < rounds && Through(nodes(j), trace, k) && m.from == j
    requires ExpectedAt(nodes(id).p, nodes(id).s, nodes(id).c, k, m)
    ensures m in Inbox(trace, id)
  {
    assert GoodNode(ids, nodes(j), j, rounds) && GoodNode(ids, nodes(id), id, rounds);
    assert Matches(nodes(j), nodes(id), k);
    hide Through, Valid, ExpectedAt, SentAt, Inbox, Run;
    assert SentAt(nodes(j), k, m) && IsFor(m, id);
    ThroughSent(ids, nodes(j), j, rounds, trace, k, m);
  }

  lemma ThroughNext(ids: seq<ID>, n: Node, id: ID, rounds: nat, trace: seq<Handover>, k: nat)
    requires k < rounds && GoodNode(ids, n, id, rounds) && Through(n, trace, k)
    requires HasRound(n.p, n.s, n.c, k, SetOf(Inbox(trace, id)))
    ensures Through(n, trace, k + 1)
  {
    hide Valid, InRound, CompleteBelow, Run, Inbox;
    var st, d := StateOf(n, trace), SetOf(Inbox(trace, id));
    if !Ended(n.p, n.s, n.c, st, d) {
      var i: nat :| i >= k && WaitsIn(n.p, n.s, n.c, st, i, d);
      assert i != k;
      assert i >= k + 1 && WaitsIn(n.p, n.s, n.c, st, i, d);
    }
  }

  lemma {:induction false} AllThrough(ids: seq<ID>, nodes: ID -> Node, rounds: nat, trace: seq<Handover>, k: nat)
    requires Fits(ids, nodes, rounds) && Possible(ids, nodes, rounds, trace) && AtRest(ids, nodes, rounds, trace)
    requires k <= rounds
    ensures forall id :: id in ids ==> Through(nodes(id), trace, k)
  {
    hide Possible, AtRest, Through, Reached, HasRound;
    if k == 0 {
      forall id | id in ids ensures Through(nodes(id), trace, 0) {
        NetworkSafe(ids, nodes, rounds, trace, id);
        assert GoodNode(ids, nodes(id), id, rounds);
        ThroughZero(nodes(id), trace);
      }
    } else {
      AllThrough(ids, nodes, rounds, trace, k - 1);
      forall id | id in ids ensures Through(nodes(id), trace, k) {
        assert GoodNode(ids, nodes(id), id, rounds);
        RoundArrived(ids, nodes, rounds, trace, id, k - 1);
        ThroughNext(ids, nodes(id), id, rounds, trace, k - 1);
      }
    }
  }

  lemma ThroughZero(n: Node, trace: seq<Handover>)
    requires Bounded(n.p, n.s) && |n.c.rounds| > 0
    requires Reached(n.p, n.s, n.c, StateOf(n, trace), SetOf(Inbox(trace, n.s.self)))
    ensures Through(n, trace, 0)
  {
    hide Ended, WaitsIn, Run, Inbox;
  }

  /**
    Progress: the network comes to rest only when every party has ended as its execution does. As long as somebody has
    no result, some message that was sent is still to be handed over.
   */
  lemma NetworkEnds(ids: seq<ID>, nodes: ID -> Node, rounds: nat, trace: seq<Handover>, id: ID)
    requires Fits(ids, nodes, rounds) && Possible(ids, nodes, rounds, trace) && AtRest(ids, nodes, rounds, trace)
    requires id in ids
    ensures var st := StateOf(nodes(id), trace);
            st.result == Some(nodes(id).c.end.value) && st.err.None?
  {
    AllThrough(ids, nodes, rounds, trace, rounds);
    assert GoodNode(ids, nodes(id), id, rounds) && Through(nodes(id), trace, rounds);
    hide Possible, AtRest, Fits, Valid, Queued, HashesAre, Storage, Settled, Closing, Whole, CompleteBelow, Run, Inbox;
  }
}
