/**
  Delivery order: for a fixed set of valid messages, every order of arrival, with early messages and
  duplicates, leads the handler to the same round and in the end to the same result.
 */
module Delivery {
  import opened Party
  import opened Handler
  import opened HandlerRuns
  import opened HandlerStorage

  /** How an execution ends: with a result, or with an error of its own. */
  datatype End = Success(value: Value) | Failing(failure: Failure)

  function OutcomeFor(end: End, msgs: seq<Outgoing>): (o: Outcome) {
    match end
    case Success(value) => Finished(Some(value), msgs)
    case Failing(failure) => Aborted(Some(failure.error), failure.culprits, msgs)
  }

  ghost predicate EndsAs(end: End, st: State) {
    match end
    case Success(value) => st.result == Some(value) && st.err.None?
    case Failing(failure) => st.err == Some(failure) && st.result.None?
  }

  /**
    An undisturbed execution of one party: the rounds it goes through, what it sends when it finalizes
    each, its own broadcast in each, and what the others send it. Round 0 waits for nothing.
   */
  datatype Script = Script(rounds: seq<Header>, sent: seq<seq<Outgoing>>, own: nat -> Outgoing,
                           b: (nat, ID) -> Message, m: (nat, ID) -> Message, end: End)

  ghost function Others(s: Session): set<ID> {
    IdSet(s.parties) - {s.self}
  }

  ghost function NumberAt(p: Protocol, c: Script, i: nat): nat
    requires i < |c.rounds|
  {
    p.number(c.rounds[i])
  }

  /** The hash that messages of round i carry: that of the round before, if it collected broadcasts. */
  ghost function Carried(p: Protocol, s: Session, c: Script, i: nat): Option<Digest>
    requires i < |c.rounds|
    decreases i, 0
  {
    if i > 0 && p.isBroadcast(c.rounds[i - 1]) && NumberAt(p, c, i - 1) + 1 == NumberAt(p, c, i)
    then Some(HashOf(p, s, c, i - 1)) else None
  }

  ghost function OwnMessage(p: Protocol, s: Session, c: Script, i: nat): Message
    requires i < |c.rounds|
    decreases i, 1
  {
    Addressed(s, c.own(i), Carried(p, s, c, i))
  }

  ghost function HashOf(p: Protocol, s: Session, c: Script, i: nat): Digest
    requires i < |c.rounds|
    decreases i, 2
  {
    var own := OwnMessage(p, s, c, i);
    p.echo(c.rounds[i], seq(|s.parties|, k requires 0 <= k < |s.parties| =>
      if s.parties[k] == s.self then own else c.b(i, s.parties[k])))
  }

  ghost function BData(p: Protocol, s: Session, c: Script, i: nat): map<ID, Data>
    requires i < |c.rounds| && forall id :: c.b(i, id).data.Some?
  {
    map id | id in Others(s) && p.isBroadcast(c.rounds[i]) :: c.b(i, id).data.value
  }

  ghost function MData(p: Protocol, s: Session, c: Script, i: nat): map<ID, Data>
    requires i < |c.rounds| && forall id :: c.m(i, id).data.Some?
  {
    map id | id in Others(s) && p.expects(c.rounds[i]) :: c.m(i, id).data.value
  }

  /** A message of round i from id, addressed to this party, carrying the right hash. */
  ghost predicate Proper(p: Protocol, s: Session, c: Script, i: nat, id: ID, m: Message)
    requires i < |c.rounds|
  {
    && m.from == id && IsFor(m, s.self) && m.protocol == s.name && m.ssid == s.ssid && m.data.Some?
    && m.number == NumberAt(p, c, i)
    && (Carried(p, s, c, i).Some? ==> m.verification == Carried(p, s, c, i))
  }

  /** The messages of round i pass its checks. */
  ghost predicate ValidRound(p: Protocol, s: Session, c: Script, i: nat)
    requires i < |c.rounds|
  {
    var h := c.rounds[i];
    forall id :: id in Others(s) ==>
      && Proper(p, s, c, i, id, c.b(i, id)) && c.b(i, id).broadcast
      && Proper(p, s, c, i, id, c.m(i, id)) && !c.m(i, id).broadcast
      && (p.isBroadcast(h) ==> p.okB(h, id, c.b(i, id).data.value))
      && (p.expects(h) ==>
            p.okM(h, id, if p.isBroadcast(h) then c.b(i, id).data else None, c.m(i, id).data.value))
  }

  ghost function Broadcasts(msgs: seq<Outgoing>): seq<Outgoing> {
    if |msgs| == 0 then [] else
    Broadcasts(msgs[..|msgs| - 1]) + if msgs[|msgs| - 1].broadcast then [msgs[|msgs| - 1]] else []
  }

  /** Finalizing round i with all its messages leads to the next round, or to the result. */
  ghost predicate ValidStep(p: Protocol, s: Session, c: Script, i: nat)
    requires i < |c.rounds| == |c.sent| && forall id :: c.b(i, id).data.Some? && c.m(i, id).data.Some?
  {
    var o := p.finalize(c.rounds[i], BData(p, s, c, i), MData(p, s, c, i));
    if i + 1 == |c.rounds| then o == OutcomeFor(c.end, c.sent[i])
    else
      && o == Next(c.rounds[i + 1], c.sent[i])
      && Broadcasts(c.sent[i]) == (if p.isBroadcast(c.rounds[i + 1]) then [c.own(i + 1)] else [])
      && c.own(i + 1).broadcast && c.own(i + 1).number == NumberAt(p, c, i + 1)
  }

  ghost predicate Valid(p: Protocol, s: Session, c: Script) {
    && 0 < |c.rounds| == |c.sent|
    && NumberAt(p, c, 0) < 2 && !p.isBroadcast(c.rounds[0]) && !p.expects(c.rounds[0])
    && (forall i :: 0 < i < |c.rounds| ==> 2 <= NumberAt(p, c, i) <= s.final && ValidRound(p, s, c, i))
    && (forall i, j :: 0 <= i < j < |c.rounds| ==> NumberAt(p, c, i) < NumberAt(p, c, j))
    && (forall i, id :: 0 <= i < |c.rounds| ==> c.b(i, id).data.Some? && c.m(i, id).data.Some?)
    && (forall i :: 0 <= i < |c.rounds| ==> ValidStep(p, s, c, i))
  }

  /** A message that some round of the script waits for. */
  ghost predicate ExpectedAt(p: Protocol, s: Session, c: Script, i: nat, m: Message) {
    && 0 < i < |c.rounds| && m.from in Others(s)
    && (if m.broadcast then p.isBroadcast(c.rounds[i]) && m == c.b(i, m.from)
        else p.expects(c.rounds[i]) && m == c.m(i, m.from))
  }

  ghost predicate Expected(p: Protocol, s: Session, c: Script, m: Message) {
    exists i: nat :: ExpectedAt(p, s, c, i, m)
  }

  /** Everything round i waits for has been delivered. */
  ghost predicate HasRound(p: Protocol, s: Session, c: Script, i: nat, d: set<Message>)
    requires i < |c.rounds|
  {
    i > 0 ==> forall id :: id in Others(s) ==>
      (p.isBroadcast(c.rounds[i]) ==> c.b(i, id) in d) && (p.expects(c.rounds[i]) ==> c.m(i, id) in d)
  }

  // ---------------------------------------------------------- scripts of three rounds

  lemma ThreeRounds(p: Protocol, s: Session, c: Script)
    requires |c.rounds| == |c.sent| == 3 && !p.isBroadcast(c.rounds[0]) && !p.expects(c.rounds[0])
    requires NumberAt(p, c, 0) < 2 <= NumberAt(p, c, 1) < NumberAt(p, c, 2) <= s.final
    requires forall i: nat, id :: c.b(i, id).data.Some? && c.m(i, id).data.Some?
    requires ValidRound(p, s, c, 1) && ValidRound(p, s, c, 2)
    requires ValidStep(p, s, c, 0) && ValidStep(p, s, c, 1) && ValidStep(p, s, c, 2)
    ensures Valid(p, s, c)
  {
    hide ValidRound, ValidStep;
    forall i | 0 <= i < |c.rounds| ensures ValidStep(p, s, c, i) {
      assert i == 0 || i == 1 || i == 2;
    }
  }

  lemma ExpectedInThree(p: Protocol, s: Session, c: Script, m: Message)
    requires |c.rounds| == 3
    ensures Expected(p, s, c, m) <==> ExpectedAt(p, s, c, 1, m) || ExpectedAt(p, s, c, 2, m)
  {
    if Expected(p, s, c, m) {
      var i: nat :| ExpectedAt(p, s, c, i, m);
      assert i == 1 || i == 2;
    }
  }

  lemma BroadcastData(p: Protocol, s: Session, c: Script, i: nat, d: map<ID, Data>)
    requires i < |c.rounds| && p.isBroadcast(c.rounds[i]) && d.Keys == Others(s)
    requires forall id :: c.b(i, id).data.Some?
    requires forall id :: id in d ==> c.b(i, id).data == Some(d[id])
    ensures BData(p, s, c, i) == d
  {
  }

  lemma MessageData(p: Protocol, s: Session, c: Script, i: nat, d: map<ID, Data>)
    requires i < |c.rounds| && p.expects(c.rounds[i]) && d.Keys == Others(s)
    requires forall id :: c.m(i, id).data.Some?
    requires forall id :: id in d ==> c.m(i, id).data == Some(d[id])
    ensures MData(p, s, c, i) == d
  {
  }

  lemma {:induction false} OnlyFirst(head: Outgoing, rest: seq<Outgoing>)
    requires head.broadcast && forall i :: 0 <= i < |rest| ==> !rest[i].broadcast
    ensures Broadcasts([head] + rest) == [head]
  {
    var msgs := [head] + rest;
    if |rest| == 0 {
      assert msgs[..0] == [];
    } else {
      OnlyFirst(head, rest[..|rest| - 1]);
      assert msgs[..|msgs| - 1] == [head] + rest[..|rest| - 1];
    }
  }

  /** A step that sends the own broadcast of the next round first, and no other. */
  lemma BroadcastStep(p: Protocol, s: Session, c: Script, i: nat, o: Outgoing, rest: seq<Outgoing>)
    requires i + 1 < |c.rounds| == |c.sent| && forall id :: c.b(i, id).data.Some? && c.m(i, id).data.Some?
    requires p.finalize(c.rounds[i], BData(p, s, c, i), MData(p, s, c, i)) == Next(c.rounds[i + 1], [o] + rest)
    requires c.sent[i] == [o] + rest && c.own(i + 1) == o && o.broadcast && o.number == NumberAt(p, c, i + 1)
    requires p.isBroadcast(c.rounds[i + 1]) && forall k :: 0 <= k < |rest| ==> !rest[k].broadcast
    ensures ValidStep(p, s, c, i)
  {
    hide BData, MData;
    OnlyFirst(o, rest);
  }

  lemma OneBroadcast(p: Protocol, s: Session, c: Script, i: nat, o: Outgoing)
    requires i + 1 < |c.rounds| == |c.sent| && forall id :: c.b(i, id).data.Some? && c.m(i, id).data.Some?
    requires p.finalize(c.rounds[i], BData(p, s, c, i), MData(p, s, c, i)) == Next(c.rounds[i + 1], [o])
    requires c.sent[i] == [o] && c.own(i + 1) == o && o.broadcast && o.number == NumberAt(p, c, i + 1)
    requires p.isBroadcast(c.rounds[i + 1])
    ensures ValidStep(p, s, c, i)
  {
    hide BData, MData, ValidStep;
    assert [o] + [] == [o];
    BroadcastStep(p, s, c, i, o, []);
  }

  // ------------------------------------------------------------------ invariant

  /** A queue holds m. */
  ghost predicate Holds(q: Queue, m: Message) {
    m.number in q && m.from in q[m.number] && q[m.number][m.from] == m
  }

  /** What others have queued is exactly what was delivered of one kind. */
  ghost predicate Delivered(s: Session, q: Queue, broadcast: bool, d: set<Message>) {
    && (forall m :: m in d && m.broadcast == broadcast ==> Holds(q, m))
    && (forall n, id :: n in q && id in q[n] && id != s.self ==> q[n][id] in d && q[n][id].broadcast == broadcast)
  }

  /** Own broadcasts are queued up to round i. */
  ghost predicate OwnUpTo(p: Protocol, s: Session, c: Script, st: State, i: nat) {
    && (forall n :: n in st.broadcast && s.self in st.broadcast[n] ==> exists j: nat :: OwnAt(p, s, c, st, n, j) && j <= i)
    && (forall j: nat :: 0 < j <= i && j < |c.rounds| && p.isBroadcast(c.rounds[j]) ==>
          OwnAt(p, s, c, st, NumberAt(p, c, j), j))
  }

  /** The queues hold exactly what was delivered, and own broadcasts up to round i. */
  ghost predicate Queued(p: Protocol, s: Session, c: Script, st: State, i: nat, d: set<Message>) {
    && Delivered(s, st.messages, false, d) && Delivered(s, st.broadcast, true, d) && OwnUpTo(p, s, c, st, i)
  }

  ghost predicate OwnAt(p: Protocol, s: Session, c: Script, st: State, n: nat, j: nat) {
    && j < |c.rounds| && n == NumberAt(p, c, j) && n in st.broadcast && s.self in st.broadcast[n]
    && st.broadcast[n][s.self] == OwnMessage(p, s, c, j)
  }

  /** The kept hashes are those of the broadcast rounds so far. */
  ghost predicate HashesAre(p: Protocol, s: Session, c: Script, st: State, i: nat) {
    && (forall k :: k in st.hashes ==> exists j: nat :: HashAt(p, s, c, st, k, j) && j <= i)
    && (forall j: nat :: j < i && j < |c.rounds| && p.isBroadcast(c.rounds[j]) ==> NumberAt(p, c, j) in st.hashes)
  }

  ghost predicate HashAt(p: Protocol, s: Session, c: Script, st: State, k: nat, j: nat) {
    && j < |c.rounds| && k == NumberAt(p, c, j) && p.isBroadcast(c.rounds[j])
    && k in st.hashes && st.hashes[k] == HashOf(p, s, c, j)
  }

  ghost predicate AllExpected(p: Protocol, s: Session, c: Script, d: set<Message>) {
    forall m :: m in d ==> Expected(p, s, c, m)
  }

  ghost function AddressAll(s: Session, msgs: seq<Outgoing>, v: Option<Digest>): (r: seq<Message>)
    ensures |r| == |msgs| && forall k :: 0 <= k < |r| ==> r[k] == Addressed(s, msgs[k], v)
  {
    seq(|msgs|, k requires 0 <= k < |msgs| => Addressed(s, msgs[k], v))
  }

  /** What has gone out when round i is entered, and with i the number of rounds, at the end. */
  ghost function SentUpTo(p: Protocol, s: Session, c: Script, i: nat): seq<Message> {
    if i == 0 || i > |c.sent| then []
    else SentUpTo(p, s, c, i - 1) + AddressAll(s, c.sent[i - 1], if i < |c.rounds| then Carried(p, s, c, i) else None)
  }

  /** What has gone out in the whole execution; an error is announced if there is room. */
  ghost function SentInAll(p: Protocol, s: Session, c: Script): seq<Message> {
    var all := SentUpTo(p, s, c, |c.rounds|);
    if c.end.Failing? && |all| < 2 * |s.parties| then all + [AbortMessage(s, c.end.failure.error)] else all
  }

  /** The handler is in round i of the script. */
  ghost predicate InRound(p: Protocol, s: Session, c: Script, st: State, i: nat, d: set<Message>) {
    && i < |c.rounds| && st.round.Running? && st.round.header == c.rounds[i]
    && !Done(st) && Whole(st) && Storage(p, s, st) && Settled(p, s, st) && Closing(st)
    && Queued(p, s, c, st, i, d) && HashesAre(p, s, c, st, i) && st.out == SentUpTo(p, s, c, i)
  }

  lemma InRoundIs(p: Protocol, s: Session, c: Script, st: State, i: nat, d: set<Message>)
    requires InRound(p, s, c, st, i, d)
    ensures i < |c.rounds| && st.round.Running? && st.round.header == c.rounds[i] && !Done(st) && Whole(st)
    ensures Storage(p, s, st) && Settled(p, s, st) && Closing(st)
    ensures Queued(p, s, c, st, i, d) && HashesAre(p, s, c, st, i) && st.out == SentUpTo(p, s, c, i)
  {
  }

  // --------------------------------------------------------------- the queue of a round

  /** Numbers identify rounds of the script. */
  lemma SameRound(p: Protocol, s: Session, c: Script, i: nat, j: nat)
    requires Valid(p, s, c) && i < |c.rounds| && j < |c.rounds| && NumberAt(p, c, i) == NumberAt(p, c, j)
    ensures i == j
  {
  }

  /** What is queued from another party for round i is what the script has. */
  lemma QueueEntry(p: Protocol, s: Session, c: Script, i: nat, d: set<Message>, m: Message)
    requires Valid(p, s, c) && AllExpected(p, s, c, d) && m in d && i < |c.rounds| && m.number == NumberAt(p, c, i)
    ensures ExpectedAt(p, s, c, i, m)
  {
    assert Expected(p, s, c, m);
    var j :| ExpectedAt(p, s, c, j, m);
    assert ValidRound(p, s, c, j);
    assert m.number == NumberAt(p, c, j);
    SameRound(p, s, c, i, j);
  }

  /** The entries of the current round in both queues. */
  lemma RoundEntries(p: Protocol, s: Session, c: Script, st: State, i: nat, d: set<Message>, id: ID)
    requires Valid(p, s, c) && AllExpected(p, s, c, d) && Queued(p, s, c, st, i, d) && Storage(p, s, st)
    requires 0 < i < |c.rounds| && id in Others(s)
    ensures var n := NumberAt(p, c, i);
            && n in st.broadcast && n in st.messages
            && (id in st.broadcast[n] ==> p.isBroadcast(c.rounds[i]) && st.broadcast[n][id] == c.b(i, id))
            && (id in st.messages[n] ==> p.expects(c.rounds[i]) && st.messages[n][id] == c.m(i, id))
            && (p.isBroadcast(c.rounds[i]) ==> (id in st.broadcast[n] <==> c.b(i, id) in d))
            && (p.expects(c.rounds[i]) ==> (id in st.messages[n] <==> c.m(i, id) in d))
  {
    StorageQueues(p, s, st);
    hide Storage;
    var n := NumberAt(p, c, i);
    assert ValidRound(p, s, c, i);
    if id in st.broadcast[n] {
      Entry(s, st.broadcast, n, id);
      QueueEntry(p, s, c, i, d, st.broadcast[n][id]);
    }
    if id in st.messages[n] {
      Entry(s, st.messages, n, id);
      QueueEntry(p, s, c, i, d, st.messages[n][id]);
    }
  }

  lemma ReceivedIff(p: Protocol, s: Session, c: Script, st: State, i: nat, d: set<Message>)
    requires Valid(p, s, c) && AllExpected(p, s, c, d) && InRound(p, s, c, st, i, d)
    ensures ReceivedAll(p, s, st) <==> HasRound(p, s, c, i, d)
  {
    hide Storage, Queued, HashesAre, Settled, Closing, Whole;
    if i > 0 {
      var n := NumberAt(p, c, i);
      forall id | id in Others(s)
        ensures n in st.broadcast && n in st.messages
        ensures p.isBroadcast(c.rounds[i]) ==> (id in st.broadcast[n] <==> c.b(i, id) in d)
        ensures p.expects(c.rounds[i]) ==> (id in st.messages[n] <==> c.m(i, id) in d)
      {
        RoundEntries(p, s, c, st, i, d, id);
      }
      OwnQueued(p, s, c, st, i, d);
    }
  }

  lemma OwnQueued(p: Protocol, s: Session, c: Script, st: State, i: nat, d: set<Message>)
    requires Valid(p, s, c) && InRound(p, s, c, st, i, d) && i > 0
    ensures var n := NumberAt(p, c, i);
            && n in st.broadcast && n in st.messages
            && (p.isBroadcast(c.rounds[i]) ==>
                  s.self in st.broadcast[n] && st.broadcast[n][s.self] == OwnMessage(p, s, c, i))
  {
    StorageQueues(p, s, st);
    hide Storage, Settled, Closing;
    if p.isBroadcast(c.rounds[i]) {
      assert OwnAt(p, s, c, st, NumberAt(p, c, i), i);
    }
  }

  // ------------------------------------------------------------- finalizing a round

  /** The list that WithHash hashes is the one of the script. */
  lemma ListIs(p: Protocol, s: Session, c: Script, st: State, i: nat, d: set<Message>)
    requires Valid(p, s, c) && AllExpected(p, s, c, d) && InRound(p, s, c, st, i, d) && i > 0
    requires p.isBroadcast(c.rounds[i]) && HasBroadcasts(p, s, st)
    ensures var n := NumberAt(p, c, i);
            && n in st.broadcast && (forall id :: id in s.parties ==> id in st.broadcast[n])
            && p.echo(c.rounds[i], Listed(st.broadcast[n], s.parties)) == HashOf(p, s, c, i)
  {
    hide Storage, Queued, HashesAre, Settled, Closing, Whole, OwnMessage, Valid, AllExpected;
    OwnQueued(p, s, c, st, i, d);
    var n := NumberAt(p, c, i);
    var own := OwnMessage(p, s, c, i);
    var listed := Listed(st.broadcast[n], s.parties);
    var scripted := seq(|s.parties|, k requires 0 <= k < |s.parties| =>
      if s.parties[k] == s.self then own else c.b(i, s.parties[k]));
    forall k | 0 <= k < |s.parties| ensures listed[k] == scripted[k] {
      if s.parties[k] != s.self {
        RoundEntries(p, s, c, st, i, d, s.parties[k]);
      }
    }
    assert listed == scripted;
  }

  lemma HashingKeeps(p: Protocol, s: Session, c: Script, st: State, i: nat, d: set<Message>)
    requires Valid(p, s, c) && AllExpected(p, s, c, d) && InRound(p, s, c, st, i, d)
    ensures HashesAre(p, s, c, WithHash(p, s, st), i)
    ensures HasRound(p, s, c, i, d) && p.isBroadcast(c.rounds[i]) ==> NumberAt(p, c, i) in WithHash(p, s, st).hashes
  {
    hide Storage, Queued, Settled, Closing, Whole, HashOf, HashesAre, AllExpected, ValidRound, ValidStep, Listed;
    var n := NumberAt(p, c, i);
    var hashed := WithHash(p, s, st);
    if p.isBroadcast(c.rounds[i]) {
      OwnQueued(p, s, c, st, i, d);
      ReceivedIff(p, s, c, st, i, d);
      if HasBroadcasts(p, s, st) {
        ListIs(p, s, c, st, i, d);
      }
    }
    HashAdded(p, s, c, st, hashed, i);
  }

  lemma HashAdded(p: Protocol, s: Session, c: Script, st: State, hashed: State, i: nat)
    requires i < |c.rounds| && HashesAre(p, s, c, st, i)
    requires hashed.hashes == st.hashes ||
             (p.isBroadcast(c.rounds[i]) && hashed.hashes == st.hashes[NumberAt(p, c, i) := HashOf(p, s, c, i)] &&
              NumberAt(p, c, i) !in st.hashes)
    ensures HashesAre(p, s, c, hashed, i)
  {
    hide HashOf;
    forall k | k in hashed.hashes ensures exists j: nat :: HashAt(p, s, c, hashed, k, j) && j <= i {
      if k in st.hashes {
        var j: nat :| HashAt(p, s, c, st, k, j) && j <= i;
        assert HashAt(p, s, c, hashed, k, j);
      } else {
        assert HashAt(p, s, c, hashed, k, i);
      }
    }
  }

  lemma Consecutive(p: Protocol, s: Session, c: Script, j: nat, i: nat)
    requires Valid(p, s, c) && j <= i < |c.rounds| && NumberAt(p, c, j) + 1 == NumberAt(p, c, i)
    ensures j + 1 == i
  {
    hide ValidRound, ValidStep;
    assert NumberAt(p, c, i - 1) < NumberAt(p, c, i);
  }

  /** A kept hash of the previous number is the one the script carries. */
  lemma PreviousHash(p: Protocol, s: Session, c: Script, st: State, i: nat)
    requires Valid(p, s, c) && i < |c.rounds| && HashesAre(p, s, c, st, i)
    requires Get(st.hashes, NumberAt(p, c, i) - 1).Some?
    ensures Carried(p, s, c, i) == Get(st.hashes, NumberAt(p, c, i) - 1)
  {
    hide HashOf, ValidRound, ValidStep;
    var k := NumberAt(p, c, i) - 1;
    var j: nat :| HashAt(p, s, c, st, k, j) && j <= i;
    Consecutive(p, s, c, j, i);
  }

  lemma HashesLater(p: Protocol, s: Session, c: Script, st: State, i: nat)
    requires i + 1 < |c.rounds| && HashesAre(p, s, c, st, i)
    requires p.isBroadcast(c.rounds[i]) ==> NumberAt(p, c, i) in st.hashes
    ensures HashesAre(p, s, c, st, i + 1)
  {
    hide HashOf;
    forall k | k in st.hashes ensures exists j: nat :: HashAt(p, s, c, st, k, j) && j <= i + 1 {
      var j: nat :| HashAt(p, s, c, st, k, j) && j <= i;
      assert HashAt(p, s, c, st, k, j) && j <= i + 1;
    }
  }

  /** The other way round: what the script carries has been kept. */
  lemma CarriedKept(p: Protocol, s: Session, c: Script, st: State, i: nat)
    requires Valid(p, s, c) && i + 1 < |c.rounds| && HashesAre(p, s, c, st, i)
    requires p.isBroadcast(c.rounds[i]) ==> NumberAt(p, c, i) in st.hashes
    ensures Carried(p, s, c, i + 1) == Get(st.hashes, NumberAt(p, c, i + 1) - 1)
    ensures HashesAre(p, s, c, st, i + 1)
  {
    hide HashOf, Valid, HashesAre;
    HashesLater(p, s, c, st, i);
    if Get(st.hashes, NumberAt(p, c, i + 1) - 1).Some? {
      PreviousHash(p, s, c, st, i + 1);
    }
  }

  /** Whatever is queued for the current round carries what the script carries. */
  lemma EntriesCarry(p: Protocol, s: Session, c: Script, st: State, i: nat, d: set<Message>, id: ID)
    requires Valid(p, s, c) && AllExpected(p, s, c, d) && InRound(p, s, c, st, i, d) && i > 0
    requires Carried(p, s, c, i).Some?
    ensures var n := NumberAt(p, c, i);
            && n in st.broadcast && n in st.messages
            && (id in st.messages[n] ==> st.messages[n][id].verification == Carried(p, s, c, i))
            && (id in st.broadcast[n] ==> st.broadcast[n][id].verification == Carried(p, s, c, i))
  {
    StorageQueues(p, s, st);
    assert ValidRound(p, s, c, i);
    hide Storage, Settled, Closing, HashesAre, AllExpected, HashOf, Carried, Delivered, ValidStep;
    var n := NumberAt(p, c, i);
    if id in st.messages[n] {
      Entry(s, st.messages, n, id);
      RoundEntries(p, s, c, st, i, d, id);
    }
    if id in st.broadcast[n] {
      Entry(s, st.broadcast, n, id);
      if id == s.self {
        var j: nat :| OwnAt(p, s, c, st, n, j) && j <= i;
        SameRound(p, s, c, i, j);
      } else {
        RoundEntries(p, s, c, st, i, d, id);
      }
    }
  }

  lemma MatchesHold(p: Protocol, s: Session, c: Script, st: State, i: nat, d: set<Message>)
    requires Valid(p, s, c) && AllExpected(p, s, c, d) && InRound(p, s, c, st, i, d)
    ensures HashesMatch(p, WithHash(p, s, st))
  {
    hide InRound, HashesAre, AllExpected, HashOf, Valid, WithHash, Carried, Get, HasRound;
    InRoundIs(p, s, c, st, i, d);
    HashingKeeps(p, s, c, st, i, d);
    var hashed := WithHash(p, s, st);
    var n := p.number(st.round.header);
    var previous := Get(hashed.hashes, p.number(st.round.header) - 1);
    if previous.Some? {
      PreviousHash(p, s, c, hashed, i);
      assert i > 0 by { CarriedLater(p, s, c, i); }
      forall id
        ensures n in st.messages && id in st.messages[n] ==> st.messages[n][id].verification == previous
        ensures n in st.broadcast && id in st.broadcast[n] ==> st.broadcast[n][id].verification == previous
      {
        EntriesCarry(p, s, c, st, i, d, id);
      }
      assert AllCarry(hashed.messages, n, previous.value) && AllCarry(hashed.broadcast, n, previous.value);
    }
  }

  lemma CarriedLater(p: Protocol, s: Session, c: Script, i: nat)
    requires i < |c.rounds| && Carried(p, s, c, i).Some?
    ensures i > 0
  {
  }

  /** Once everything is in, the round has stored exactly the data of the script. */
  lemma SlotsAre(p: Protocol, s: Session, c: Script, st: State, i: nat, d: set<Message>)
    requires Valid(p, s, c) && AllExpected(p, s, c, d) && InRound(p, s, c, st, i, d) && HasRound(p, s, c, i, d)
    ensures st.round.broadcasts == BData(p, s, c, i) && st.round.messages == MData(p, s, c, i)
  {
    hide History, HashesAre, Queued, AllExpected;
    var n := NumberAt(p, c, i);
    forall id ensures id in st.round.broadcasts <==> id in BData(p, s, c, i)
              ensures id in st.round.messages <==> id in MData(p, s, c, i)
              ensures id in st.round.broadcasts ==> st.round.broadcasts[id] == BData(p, s, c, i)[id]
              ensures id in st.round.messages ==> st.round.messages[id] == MData(p, s, c, i)[id]
    {
      SlotIs(p, s, c, st, i, d, id);
    }
  }

  lemma SlotIs(p: Protocol, s: Session, c: Script, st: State, i: nat, d: set<Message>, id: ID)
    requires Valid(p, s, c) && AllExpected(p, s, c, d) && InRound(p, s, c, st, i, d) && HasRound(p, s, c, i, d)
    ensures id in st.round.broadcasts <==> id in Others(s) && p.isBroadcast(c.rounds[i])
    ensures id in st.round.messages <==> id in Others(s) && p.expects(c.rounds[i])
    ensures id in st.round.broadcasts ==> st.round.broadcasts[id] == c.b(i, id).data.value
    ensures id in st.round.messages ==> st.round.messages[id] == c.m(i, id).data.value
  {
    assert SlotOk(p, s, st, id);
    assert id in s.parties ==> Drained(p, s, st, id);
    StorageQueues(p, s, st);
    hide Storage, Settled, Closing, Queued, HashesAre, AllExpected;
    var n := NumberAt(p, c, i);
    if id in st.round.broadcasts {
      Entry(s, st.broadcast, n, id);
    }
    if id in st.round.messages {
      Entry(s, st.messages, n, id);
      assert s.self !in st.messages[n];
    }
    if i > 0 && id in Others(s) {
      RoundEntries(p, s, c, st, i, d, id);
    }
  }

  // -------------------------------------------------------------- entering a round

  ghost function PutAll(s: Session, q: Queue, os: seq<Outgoing>, v: Option<Digest>): Queue {
    if |os| == 0 then q else Put(PutAll(s, q, os[..|os| - 1], v), Addressed(s, os[|os| - 1], v))
  }

  lemma {:induction false} ForwardQueue(s: Session, st: State, msgs: seq<Outgoing>, v: Option<Digest>)
    ensures Forward(s, st, msgs, v).broadcast == PutAll(s, st.broadcast, Broadcasts(msgs), v)
  {
    if |msgs| != 0 {
      var n := |msgs| - 1;
      ForwardQueue(s, st, msgs[..n], v);
      var before := Broadcasts(msgs[..n]);
      if msgs[n].broadcast {
        assert Broadcasts(msgs) == before + [msgs[n]];
        assert (before + [msgs[n]])[..|before|] == before;
      } else {
        assert before + [] == before;
      }
    }
  }

  lemma {:induction false} ForwardOut(s: Session, st: State, msgs: seq<Outgoing>, v: Option<Digest>)
    ensures Forward(s, st, msgs, v).out == st.out + AddressAll(s, msgs, v)
  {
    if |msgs| != 0 {
      var n := |msgs| - 1;
      ForwardOut(s, st, msgs[..n], v);
      assert AddressAll(s, msgs, v) == AddressAll(s, msgs[..n], v) + [Addressed(s, msgs[n], v)];
    }
  }

  lemma StepIs(p: Protocol, s: Session, c: Script, i: nat)
    requires Valid(p, s, c) && i + 1 < |c.rounds|
    ensures |c.rounds| == |c.sent| && 2 <= NumberAt(p, c, i + 1) <= s.final
    ensures forall j: nat :: j <= i ==> NumberAt(p, c, j) < NumberAt(p, c, i + 1)
    ensures Broadcasts(c.sent[i]) == (if p.isBroadcast(c.rounds[i + 1]) then [c.own(i + 1)] else [])
    ensures c.own(i + 1).broadcast && c.own(i + 1).number == NumberAt(p, c, i + 1)
  {
    hide ValidRound;
    assert ValidStep(p, s, c, i);
  }

  /** The own broadcast of the next round is the only change of the queues. */
  lemma EnteredQueues(p: Protocol, s: Session, c: Script, now: State, i: nat, d: set<Message>)
    requires Valid(p, s, c) && i + 1 < |c.rounds| && Queued(p, s, c, now, i, d) && HashesAre(p, s, c, now, i)
    requires QueueOk(s, now.broadcast) && s.self in s.parties
    requires p.isBroadcast(c.rounds[i]) ==> NumberAt(p, c, i) in now.hashes
    ensures Queued(p, s, c, Entered(p, s, now, c.rounds[i + 1], c.sent[i]), i + 1, d)
  {
    hide Valid, HashesAre, HashOf, Carried, Delivered;
    CarriedKept(p, s, c, now, i);
    StepIs(p, s, c, i);
    var n := NumberAt(p, c, i + 1);
    var v := Get(now.hashes, NumberAt(p, c, i + 1) - 1);
    var entered := Entered(p, s, now, c.rounds[i + 1], c.sent[i]);
    ForwardQueue(s, now, c.sent[i], v);
    if p.isBroadcast(c.rounds[i + 1]) {
      var os := [c.own(i + 1)];
      assert os[..0] == [];
      assert entered.broadcast == Put(now.broadcast, OwnMessage(p, s, c, i + 1));
      assert s.self !in now.broadcast[n];
      OwnAdded(p, s, c, now, entered, i, d);
    } else {
      assert entered.broadcast == now.broadcast;
      OwnKept(p, s, c, now, entered, i);
    }
  }

  lemma OwnKept(p: Protocol, s: Session, c: Script, now: State, entered: State, i: nat)
    requires i + 1 < |c.rounds| && OwnUpTo(p, s, c, now, i) && entered.broadcast == now.broadcast
    requires !p.isBroadcast(c.rounds[i + 1])
    ensures OwnUpTo(p, s, c, entered, i + 1)
  {
    hide OwnMessage;
    forall n | n in entered.broadcast && s.self in entered.broadcast[n]
      ensures exists j: nat :: OwnAt(p, s, c, entered, n, j) && j <= i + 1
    {
      var j: nat :| OwnAt(p, s, c, now, n, j) && j <= i;
      assert OwnAt(p, s, c, entered, n, j);
    }
    forall j: nat | 0 < j <= i + 1 && j < |c.rounds| && p.isBroadcast(c.rounds[j])
      ensures OwnAt(p, s, c, entered, NumberAt(p, c, j), j)
    {
      assert OwnAt(p, s, c, now, NumberAt(p, c, j), j);
    }
  }

  lemma OwnAdded(p: Protocol, s: Session, c: Script, now: State, entered: State, i: nat, d: set<Message>)
    requires i + 1 < |c.rounds| && Queued(p, s, c, now, i, d) && s.self in s.parties
    requires var own := OwnMessage(p, s, c, i + 1);
             && own.from == s.self && own.number == NumberAt(p, c, i + 1)
             && own.number in now.broadcast && s.self !in now.broadcast[own.number]
             && entered.broadcast == Put(now.broadcast, own)
    ensures Delivered(s, entered.broadcast, true, d) && OwnUpTo(p, s, c, entered, i + 1)
  {
    var own := OwnMessage(p, s, c, i + 1);
    hide OwnMessage;
    forall m | m in d && m.broadcast ensures Holds(entered.broadcast, m) {
      assert Holds(now.broadcast, m);
    }
    assert OwnAt(p, s, c, entered, own.number, i + 1);
    forall n | n in entered.broadcast && s.self in entered.broadcast[n]
      ensures exists j: nat :: OwnAt(p, s, c, entered, n, j) && j <= i + 1
    {
      if n != own.number {
        var j: nat :| OwnAt(p, s, c, now, n, j) && j <= i;
        assert OwnAt(p, s, c, entered, n, j);
      }
    }
    forall j: nat | 0 < j <= i + 1 && j < |c.rounds| && p.isBroadcast(c.rounds[j])
      ensures OwnAt(p, s, c, entered, NumberAt(p, c, j), j)
    {
      if j <= i {
        assert OwnAt(p, s, c, now, NumberAt(p, c, j), j);
      }
    }
  }

  // ---------------------------------------------------------------- reading the queue

  /** Reading what one sender has queued for the current round never fails. */
  lemma ReadOneOk(p: Protocol, s: Session, c: Script, st: State, i: nat, d: set<Message>, id: ID)
    requires Valid(p, s, c) && AllExpected(p, s, c, d) && 0 < i < |c.rounds|
    requires st.round.Running? && st.round.header == c.rounds[i] && Whole(st) && Storage(p, s, st) && Untouched(st, id)
    requires Queued(p, s, c, st, i, d)
    ensures ReadOne(p, s, st, id).error.None?
  {
    assert SlotOk(p, s, st, id) && ValidRound(p, s, c, i);
    StorageQueues(p, s, st);
    hide Storage, Queued, AllExpected, Valid, SlotOk;
    var n := NumberAt(p, c, i);
    assert n in st.broadcast && n in st.messages by { InDomain(p, s, c, st, i); }
    if id in st.broadcast[n] {
      Entry(s, st.broadcast, n, id);
    }
    if id in st.messages[n] {
      Entry(s, st.messages, n, id);
    }
    if id in Others(s) {
      RoundEntries(p, s, c, st, i, d, id);
    }
  }

  lemma InDomain(p: Protocol, s: Session, c: Script, st: State, i: nat)
    requires Valid(p, s, c) && 0 < i < |c.rounds| && QueueOk(s, st.broadcast) && QueueOk(s, st.messages)
    ensures NumberAt(p, c, i) in st.broadcast && NumberAt(p, c, i) in st.messages
  {
    hide ValidRound, ValidStep;
  }

  lemma {:induction false} ReadQueueOk(p: Protocol, s: Session, c: Script, st: State, i: nat, d: set<Message>, ids: seq<ID>)
    requires Valid(p, s, c) && AllExpected(p, s, c, d) && 0 < i < |c.rounds|
    requires st.round.Running? && st.round.header == c.rounds[i] && Whole(st) && Storage(p, s, st)
    requires Queued(p, s, c, st, i, d)
    requires (forall x, y :: 0 <= x < y < |ids| ==> ids[x] != ids[y]) && forall id :: id in ids ==> Untouched(st, id)
    ensures ReadQueue(p, s, st, ids).1.None?
    decreases |ids|
  {
    hide Valid, AllExpected, Storage, ReadOne;
    if |ids| != 0 {
      ReadOneOk(p, s, c, st, i, d, ids[0]);
      ReadOneStorage(p, s, st, ids[0]);
      var next := ReadOne(p, s, st, ids[0]).state;
      assert Queued(p, s, c, next, i, d) by { SameQueues(p, s, c, st, next, i, d); }
      hide Queued;
      forall id | id in ids[1..] ensures Untouched(next, id) {
        assert id in ids && id != ids[0];
      }
      ReadQueueOk(p, s, c, next, i, d, ids[1..]);
    }
  }

  lemma SameQueues(p: Protocol, s: Session, c: Script, a: State, b: State, i: nat, d: set<Message>)
    requires Queued(p, s, c, a, i, d) && b.messages == a.messages && b.broadcast == a.broadcast
    ensures Queued(p, s, c, b, i, d)
  {
    hide Delivered, OwnMessage;
    forall n | n in b.broadcast && s.self in b.broadcast[n]
      ensures exists j: nat :: OwnAt(p, s, c, b, n, j) && j <= i
    {
      var j: nat :| OwnAt(p, s, c, a, n, j) && j <= i;
      assert OwnAt(p, s, c, b, n, j);
    }
    forall j: nat | 0 < j <= i && j < |c.rounds| && p.isBroadcast(c.rounds[j])
      ensures OwnAt(p, s, c, b, NumberAt(p, c, j), j)
    {
      assert OwnAt(p, s, c, a, NumberAt(p, c, j), j);
    }
  }

  lemma SameHashes(p: Protocol, s: Session, c: Script, a: State, b: State, i: nat)
    requires HashesAre(p, s, c, a, i) && b.hashes == a.hashes
    ensures HashesAre(p, s, c, b, i)
  {
    hide HashOf;
    forall k | k in b.hashes ensures exists j: nat :: HashAt(p, s, c, b, k, j) && j <= i {
      var j: nat :| HashAt(p, s, c, a, k, j) && j <= i;
      assert HashAt(p, s, c, b, k, j);
    }
  }

  // ------------------------------------------------------------------- one step

  /** The state just before the outcome of round i takes effect. */
  ghost predicate Complete(p: Protocol, s: Session, c: Script, now: State, i: nat, d: set<Message>) {
    && InRound(p, s, c, now, i, d)
    && (p.isBroadcast(c.rounds[i]) ==> NumberAt(p, c, i) in now.hashes)
  }

  /** With everything delivered the round finalizes as the script says. */
  lemma Concluding(p: Protocol, s: Session, c: Script, st: State, i: nat, d: set<Message>)
    requires Valid(p, s, c) && AllExpected(p, s, c, d) && InRound(p, s, c, st, i, d) && HasRound(p, s, c, i, d)
    ensures Concludes(p, s, st) && Complete(p, s, c, Finalizing(p, s, st), i, d)
    ensures OutcomeOf(p, st) == p.finalize(c.rounds[i], BData(p, s, c, i), MData(p, s, c, i))
  {
    InRoundIs(p, s, c, st, i, d);
    hide HashesAre, Queued, HasRound, AllExpected, ReceivedAll, HashesMatch, Storage, Settled, ValidRound, ValidStep,
      WithHash, Silents, BData, MData;
    ReceivedIff(p, s, c, st, i, d);
    MatchesHold(p, s, c, st, i, d);
    SlotsAre(p, s, c, st, i, d);
    HashingKeeps(p, s, c, st, i, d);
    FinalizingStorage(p, s, st);
    var now := Finalizing(p, s, st);
    SameQueues(p, s, c, st, now, i, d);
    SameHashes(p, s, c, WithHash(p, s, st), now, i);
    QuietAppend(st.log, Finalized(p.number(st.round.header)));
    assert Settled(p, s, now) by { SameSettled(p, s, st, now); }
  }

  lemma SameSettled(p: Protocol, s: Session, a: State, b: State)
    requires Settled(p, s, a) && b.round == a.round && b.err == a.err && b.result == a.result
    requires b.messages == a.messages && b.broadcast == a.broadcast
    ensures Settled(p, s, b)
  {
    if b.round.Running? && !Done(b) {
      forall f | f in s.parties ensures Drained(p, s, b, f) {
        assert Drained(p, s, a, f);
      }
    }
  }

  /** The next round of the script is entered for the first time. */
  lemma EnteredNext(p: Protocol, s: Session, c: Script, now: State, i: nat, d: set<Message>)
    requires Valid(p, s, c) && Sane(p, s) && Complete(p, s, c, now, i, d) && i + 1 < |c.rounds|
    ensures |c.sent| == |c.rounds| && NumberAt(p, c, i + 1) !in now.rounds
    ensures NumberAt(p, c, i + 1) >= p.number(now.round.header)
    ensures var entered := Entered(p, s, now, c.rounds[i + 1], c.sent[i]);
            && Storage(p, s, entered) && Queued(p, s, c, entered, i + 1, d) && HashesAre(p, s, c, entered, i + 1)
            && entered.out == SentUpTo(p, s, c, i + 1)
  {
    hide Storage, Queued, HashesAre, Valid, Settled, Silents, Forward, Closing, Covers, HashOf, Whole;
    StepIs(p, s, c, i);
    StorageQueues(p, s, now);
    NotEntered(p, s, c, now, i);
    EnteredQueues(p, s, c, now, i, d);
    CarriedKept(p, s, c, now, i);
    EnteredStorage(p, s, now, c.rounds[i + 1], c.sent[i]);
    ForwardOut(s, now, c.sent[i], Get(now.hashes, NumberAt(p, c, i + 1) - 1));
    SameHashes(p, s, c, now, Entered(p, s, now, c.rounds[i + 1], c.sent[i]), i + 1);
  }

  /** Entering the next round of the script. */
  lemma EnterNext(p: Protocol, s: Session, c: Script, now: State, i: nat, d: set<Message>)
    requires Valid(p, s, c) && Sane(p, s) && AllExpected(p, s, c, d) && Complete(p, s, c, now, i, d) && i + 1 < |c.rounds|
    ensures |c.sent| == |c.rounds|
    ensures var r := Enter(p, s, now, c.rounds[i + 1], c.sent[i]);
            r.Again? && InRound(p, s, c, r.state, i + 1, d)
  {
    hide Storage, Queued, HashesAre, AllExpected, Valid, Settled, Silents, Forward, ReadQueue, Closing, Covers, Bounded,
      Forwards;
    EnteredNext(p, s, c, now, i, d);
    var h, n := c.rounds[i + 1], NumberAt(p, c, i + 1);
    var entered := Entered(p, s, now, h, c.sent[i]);
    assert Covers(p.order(n), s.parties);
    CoversApart(p.order(n), s.parties);
    ReadQueueOk(p, s, c, entered, i + 1, d, p.order(n));
    ReadQueueKeeps(p, s, entered, p.order(n));
    var read := ReadQueue(p, s, entered, p.order(n)).0;
    SameQueues(p, s, c, entered, read, i + 1, d);
    SameHashes(p, s, c, entered, read, i + 1);
    EnterStorage(p, s, now, h, c.sent[i]);
    EnterClosing(p, s, now, h, c.sent[i]);
  }

  lemma CoversApart(ids: seq<ID>, parties: seq<ID>)
    requires Covers(ids, parties)
    ensures forall x, y :: 0 <= x < y < |ids| ==> ids[x] != ids[y]
  {
  }

  lemma NotEntered(p: Protocol, s: Session, c: Script, now: State, i: nat)
    requires Valid(p, s, c) && Storage(p, s, now) && i + 1 < |c.rounds|
    requires now.round.Running? && now.round.header == c.rounds[i]
    ensures NumberAt(p, c, i + 1) !in now.rounds && NumberAt(p, c, i + 1) > p.number(now.round.header)
  {
    hide ValidRound, ValidStep, History, QueueOk, SlotOk;
    assert NumberAt(p, c, i) < NumberAt(p, c, i + 1);
  }

  // --------------------------------------------------------------------- whole runs

  /** All rounds below i are complete. */
  ghost predicate CompleteBelow(p: Protocol, s: Session, c: Script, i: nat, d: set<Message>) {
    forall j: nat :: j < i && j < |c.rounds| ==> HasRound(p, s, c, j, d)
  }

  /** The handler waits in the first round that is not complete. */
  ghost predicate WaitsIn(p: Protocol, s: Session, c: Script, st: State, i: nat, d: set<Message>) {
    InRound(p, s, c, st, i, d) && CompleteBelow(p, s, c, i, d) && !HasRound(p, s, c, i, d)
  }

  /** The handler has come to the end of the script. */
  ghost predicate Ended(p: Protocol, s: Session, c: Script, st: State, d: set<Message>) {
    EndsAs(c.end, st) && st.round.Over? && st.out == SentInAll(p, s, c) && CompleteBelow(p, s, c, |c.rounds|, d)
  }

  /** What the delivered messages determine: the round waited in, or the result. */
  ghost predicate Reached(p: Protocol, s: Session, c: Script, st: State, d: set<Message>) {
    Whole(st) && (Ended(p, s, c, st, d) || exists i: nat :: WaitsIn(p, s, c, st, i, d))
  }

  lemma HashedInRound(p: Protocol, s: Session, c: Script, st: State, i: nat, d: set<Message>)
    requires Valid(p, s, c) && AllExpected(p, s, c, d) && InRound(p, s, c, st, i, d)
    ensures InRound(p, s, c, WithHash(p, s, st), i, d)
  {
    hide Storage, Queued, HashesAre, AllExpected, Valid, Settled, Silents, HasRound, WithHash;
    var hashed := WithHash(p, s, st);
    HashingKeeps(p, s, c, st, i, d);
    SameQueues(p, s, c, st, hashed, i, d);
    SameSettled(p, s, st, hashed);
    assert QueueOk(s, st.broadcast) by { StorageQueues(p, s, st); }
    ExtendsSelf(s, st.broadcast);
    StorageExtends(p, s, st, hashed);
  }

  /** One finalize in a round of the script: wait, go on to the next round, or end. */
  lemma AdvanceReaches(p: Protocol, s: Session, c: Script, st: State, i: nat, d: set<Message>)
    requires Valid(p, s, c) && Sane(p, s) && AllExpected(p, s, c, d) && InRound(p, s, c, st, i, d)
    ensures st.round.Running? && Whole(st)
    ensures var r := Advance(p, s, st);
            if !HasRound(p, s, c, i, d) then r.Stop? && InRound(p, s, c, r.state, i, d)
            else if i + 1 < |c.rounds| then r.Again? && InRound(p, s, c, r.state, i + 1, d)
            else r.Stop? && EndsAs(c.end, r.state) && r.state.round.Over? && r.state.out == SentInAll(p, s, c)
  {
    hide Storage, Queued, HashesAre, AllExpected, Settled, Closing, HasRound, BData, MData,
      WithHash, Enter, Forward, ReceivedAll, HashesMatch, Valid, Sane;
    ReceivedIff(p, s, c, st, i, d);
    if !HasRound(p, s, c, i, d) {
      HashedInRound(p, s, c, st, i, d);
    } else {
      Concluding(p, s, c, st, i, d);
      StepOutcome(p, s, c, i);
      if i + 1 < |c.rounds| {
        EnterNext(p, s, c, Finalizing(p, s, st), i, d);
      } else {
        ForwardOut(s, Finalizing(p, s, st), c.sent[i], None);
      }
    }
  }

  lemma StepOutcome(p: Protocol, s: Session, c: Script, i: nat)
    requires Valid(p, s, c) && i < |c.rounds|
    ensures |c.sent| == |c.rounds|
    ensures forall id :: c.b(i, id).data.Some? && c.m(i, id).data.Some?
    ensures p.finalize(c.rounds[i], BData(p, s, c, i), MData(p, s, c, i)) ==
            if i + 1 == |c.rounds| then OutcomeFor(c.end, c.sent[i]) else Next(c.rounds[i + 1], c.sent[i])
  {
    hide ValidRound, BData, MData;
    assert ValidStep(p, s, c, i);
  }

  lemma FinalizeStep(p: Protocol, s: Session, st: State)
    requires Ready(p, s, st)
    ensures Advance(p, s, st).Stop? ==> Finalize(p, s, st) == Advance(p, s, st).state
    ensures Advance(p, s, st).Again? ==>
              Ready(p, s, Advance(p, s, st).state) && Finalize(p, s, st) == Finalize(p, s, Advance(p, s, st).state)
    ensures Whole(Finalize(p, s, st))
  {
    if Advance(p, s, st).Again? {
      AdvanceEnters(p, s, st);
    }
  }

  /** Finalizing goes on until the first round that is not complete, or to the result. */
  lemma {:induction false} FinalizeReaches(p: Protocol, s: Session, c: Script, st: State, i: nat, d: set<Message>)
    requires Valid(p, s, c) && Sane(p, s) && AllExpected(p, s, c, d) && InRound(p, s, c, st, i, d)
    requires CompleteBelow(p, s, c, i, d)
    ensures Ready(p, s, st) && Reached(p, s, c, Finalize(p, s, st), d)
    decreases |c.rounds| - i
  {
    hide AllExpected, HasRound, InRound, Advance, Valid, Bounded, Whole, Forwards, Finalize, Storage, Settled, Closing,
      Queued, HashesAre;
    InRoundIs(p, s, c, st, i, d);
    AdvanceReaches(p, s, c, st, i, d);
    FinalizeStep(p, s, st);
    var r := Advance(p, s, st);
    if !HasRound(p, s, c, i, d) {
      assert WaitsIn(p, s, c, Finalize(p, s, st), i, d);
    } else if i + 1 < |c.rounds| {
      AdvanceEnters(p, s, st);
      FinalizeReaches(p, s, c, r.state, i + 1, d);
    } else {
      assert Ended(p, s, c, Finalize(p, s, st), d);
    }
  }

  /** Adding a message never makes a complete round incomplete. */
  lemma MoreDelivered(p: Protocol, s: Session, c: Script, i: nat, d: set<Message>, m: Message)
    requires CompleteBelow(p, s, c, i, d)
    ensures CompleteBelow(p, s, c, i, d + {m})
  {
    forall j: nat | j < i && j < |c.rounds| ensures HasRound(p, s, c, j, d + {m}) {
      assert HasRound(p, s, c, j, d);
    }
  }

  /** A message of a complete round has been delivered. */
  lemma CompleteDelivered(p: Protocol, s: Session, c: Script, i: nat, j: nat, d: set<Message>, m: Message)
    requires CompleteBelow(p, s, c, i, d) && ExpectedAt(p, s, c, j, m)
    ensures j < i ==> m in d
  {
    assert j < i ==> HasRound(p, s, c, j, d);
  }

  /** What is queued under the sender and number of an expected message is that message. */
  lemma HeldDelivered(p: Protocol, s: Session, c: Script, st: State, j: nat, d: set<Message>, m: Message)
    requires Valid(p, s, c) && AllExpected(p, s, c, d) && ExpectedAt(p, s, c, j, m)
    requires QueueOk(s, st.messages) && QueueOk(s, st.broadcast)
    requires Delivered(s, st.messages, false, d) && Delivered(s, st.broadcast, true, d)
    ensures m.number == NumberAt(p, c, j)
    ensures Held(if m.broadcast then st.broadcast else st.messages, m) <==> m in d
  {
    assert ValidRound(p, s, c, j);
    var q := if m.broadcast then st.broadcast else st.messages;
    assert m.number == NumberAt(p, c, j) && m.number in q;
    if m in d {
      assert Holds(q, m);
    }
    if m.from in q[m.number] {
      Entry(s, q, m.number, m.from);
      QueueEntry(p, s, c, j, d, q[m.number][m.from]);
    }
  }

  /** An expected message that has not been delivered is never late, early or a duplicate. */
  lemma NeverLate(p: Protocol, s: Session, c: Script, st: State, i: nat, d: set<Message>, m: Message)
    requires Valid(p, s, c) && AllExpected(p, s, c, d) && WaitsIn(p, s, c, st, i, d) && Expected(p, s, c, m) && m !in d
    ensures !Refuses(p, s, st, m) && m.number >= Number(p, st.round) && m.number > 0
  {
    InRoundIs(p, s, c, st, i, d);
    StorageQueues(p, s, st);
    hide Storage, HashesAre, Settled, Closing, OwnUpTo, HasRound, Delivered, AllExpected, ValidStep, InRound;
    var j: nat :| ExpectedAt(p, s, c, j, m);
    CompleteDelivered(p, s, c, i, j, d, m);
    HeldDelivered(p, s, c, st, j, d, m);
    assert ValidRound(p, s, c, j);
    assert j == i || NumberAt(p, c, i) < NumberAt(p, c, j);
  }

  /** A message that has been delivered is refused when it comes again. */
  lemma AgainRefused(p: Protocol, s: Session, c: Script, st: State, i: nat, d: set<Message>, m: Message)
    requires Valid(p, s, c) && AllExpected(p, s, c, d) && InRound(p, s, c, st, i, d) && Expected(p, s, c, m) && m in d
    ensures Refuses(p, s, st, m)
  {
    InRoundIs(p, s, c, st, i, d);
    StorageQueues(p, s, st);
    hide Storage, HashesAre, Settled, Closing, OwnUpTo, Delivered, AllExpected, ValidStep, InRound;
    var j: nat :| ExpectedAt(p, s, c, j, m);
    assert ValidRound(p, s, c, j);
    HeldDelivered(p, s, c, st, j, d, m);
  }

  lemma PutDelivered(s: Session, q: Queue, broadcast: bool, d: set<Message>, m: Message)
    requires Delivered(s, q, broadcast, d) && m.broadcast == broadcast && !Held(q, m)
    ensures Delivered(s, Put(q, m), broadcast, d + {m})
  {
    forall x | x in d + {m} && x.broadcast == broadcast ensures Holds(Put(q, m), x) {
      if x in d {
        assert Holds(q, x);
      }
    }
  }

  lemma OtherDelivered(s: Session, q: Queue, broadcast: bool, d: set<Message>, m: Message)
    requires Delivered(s, q, broadcast, d) && m.broadcast != broadcast
    ensures Delivered(s, q, broadcast, d + {m})
  {
  }

  /** Storing a message that was not held adds it to what the queues hold. */
  lemma StoreQueued(p: Protocol, s: Session, c: Script, st: State, i: nat, d: set<Message>, m: Message)
    requires Queued(p, s, c, st, i, d) && !Duplicate(st, m) && m.number != 0 && m.from != s.self
    ensures Queued(p, s, c, Store(st, m), i, d + {m})
  {
    hide Delivered, OwnMessage;
    var stored := Store(st, m);
    if m.broadcast {
      PutDelivered(s, st.broadcast, true, d, m);
      OtherDelivered(s, st.messages, false, d, m);
    } else {
      PutDelivered(s, st.messages, false, d, m);
      OtherDelivered(s, st.broadcast, true, d, m);
    }
    forall n | n in stored.broadcast && s.self in stored.broadcast[n]
      ensures exists j: nat :: OwnAt(p, s, c, stored, n, j) && j <= i
    {
      var j: nat :| OwnAt(p, s, c, st, n, j) && j <= i;
      assert OwnAt(p, s, c, stored, n, j);
    }
    forall j: nat | 0 < j <= i && j < |c.rounds| && p.isBroadcast(c.rounds[j])
      ensures OwnAt(p, s, c, stored, NumberAt(p, c, j), j)
    {
      assert OwnAt(p, s, c, st, NumberAt(p, c, j), j);
    }
  }

  /** A message of the current round passes its checks. */
  lemma VerifyOk(p: Protocol, s: Session, c: Script, stored: State, i: nat, d: set<Message>, m: Message)
    requires Valid(p, s, c) && AllExpected(p, s, c, d) && ExpectedAt(p, s, c, i, m) && m in d
    requires stored.round.Running? && stored.round.header == c.rounds[i] && Whole(stored) && Storage(p, s, stored)
    requires Queued(p, s, c, stored, i, d)
    requires !m.broadcast && p.isBroadcast(c.rounds[i]) && c.b(i, m.from) in d ==> m.from in stored.round.broadcasts
    ensures m.data.Some? && Verify(p, stored, m).error.None?
  {
    assert SlotOk(p, s, stored, m.from) && ValidRound(p, s, c, i);
    RoundEntries(p, s, c, stored, i, d, m.from);
    hide Storage, Queued, AllExpected, Valid;
  }

  /** A message of another round leaves the current round as incomplete as it was. */
  lemma StillIncomplete(p: Protocol, s: Session, c: Script, i: nat, j: nat, d: set<Message>, m: Message)
    requires Valid(p, s, c) && i < |c.rounds| && !HasRound(p, s, c, i, d) && ExpectedAt(p, s, c, j, m) && j != i
    ensures !HasRound(p, s, c, i, d + {m})
  {
    hide ValidStep;
    assert ValidRound(p, s, c, i) && ValidRound(p, s, c, j);
    assert m.number == NumberAt(p, c, j) && NumberAt(p, c, i) != NumberAt(p, c, j);
    forall id | id in Others(s) ensures m != c.b(i, id) && m != c.m(i, id) {
      assert c.b(i, id).number == NumberAt(p, c, i);
    }
  }

  lemma ExpectedGrows(p: Protocol, s: Session, c: Script, d: set<Message>, m: Message)
    requires AllExpected(p, s, c, d) && Expected(p, s, c, m)
    ensures AllExpected(p, s, c, d + {m})
  {
  }

  /** An early message is queued and changes nothing else. */
  lemma EarlyReaches(p: Protocol, s: Session, c: Script, st: State, i: nat, j: nat, d: set<Message>, m: Message)
    requires Valid(p, s, c) && Sane(p, s) && AllExpected(p, s, c, d) && WaitsIn(p, s, c, st, i, d)
    requires ExpectedAt(p, s, c, j, m) && m !in d && m.number != Number(p, st.round)
    requires !Refuses(p, s, st, m) && m.number > 0
    ensures Reached(p, s, c, Accept(p, s, st, m), d + {m})
  {
    InRoundIs(p, s, c, st, i, d);
    hide Storage, Queued, HashesAre, AllExpected, Settled, Closing, Finalize, CanAccept, ValidRound, ValidStep, HasRound,
      CompleteBelow, Bounded, Forwards;
    Accepted(s, Number(p, st.round), m);
    var stored := Store(st, m);
    assert stored == Accept(p, s, st, m);
    StoreQueued(p, s, c, st, i, d, m);
    SameHashes(p, s, c, st, stored, i);
    AcceptStorage(p, s, st, m);
    AcceptClosing(p, s, st, m);
    assert j != i by { assert ExpectedNumber(p, s, c, j, m); }
    StillIncomplete(p, s, c, i, j, d, m);
    MoreDelivered(p, s, c, i, d, m);
    assert WaitsIn(p, s, c, stored, i, d + {m});
  }

  ghost predicate ExpectedNumber(p: Protocol, s: Session, c: Script, j: nat, m: Message) {
    j < |c.rounds| && m.number == NumberAt(p, c, j)
  }

  lemma ExpectedNumbers(p: Protocol, s: Session, c: Script, j: nat, m: Message)
    requires Valid(p, s, c) && ExpectedAt(p, s, c, j, m)
    ensures ExpectedNumber(p, s, c, j, m)
  {
    hide ValidStep;
    assert ValidRound(p, s, c, j);
  }

  /** A message of the current round passes its checks. */
  lemma CurrentChecked(p: Protocol, s: Session, c: Script, st: State, i: nat, d: set<Message>, m: Message)
    requires Valid(p, s, c) && AllExpected(p, s, c, d) && InRound(p, s, c, st, i, d) && ExpectedAt(p, s, c, i, m)
    requires m.number > 0 && !Duplicate(st, m)
    requires m.data.Some? && m.from in s.parties && m.from != s.self
    ensures Storage(p, s, Store(st, m)) && Verify(p, Store(st, m), m).error.None?
    ensures Queued(p, s, c, Store(st, m), i, d + {m}) && HashesAre(p, s, c, Store(st, m), i)
  {
    hide Storage, Queued, HashesAre, AllExpected, Closing, Valid, Settled, Verify, ExpectedAt;
    var stored := Store(st, m);
    assert Expected(p, s, c, m);
    ExpectedGrows(p, s, c, d, m);
    StoreQueued(p, s, c, st, i, d, m);
    StoreStorage(p, s, st, m);
    BroadcastStored(p, s, c, st, i, d, m);
    VerifyOk(p, s, c, stored, i, d + {m}, m);
    SameHashes(p, s, c, st, stored, i);
  }

  /** Checking it keeps the round in step with the script. */
  lemma CurrentVerified(p: Protocol, s: Session, c: Script, st: State, i: nat, d: set<Message>, m: Message)
    requires Valid(p, s, c) && AllExpected(p, s, c, d) && InRound(p, s, c, st, i, d) && ExpectedAt(p, s, c, i, m)
    requires m !in d && m.number == Number(p, st.round) && m.number > 0 && !Duplicate(st, m)
    requires m.data.Some? && m.from in s.parties && m.from != s.self
    ensures var step := Verify(p, Store(st, m), m);
            step.error.None? && InRound(p, s, c, step.state, i, d + {m})
  {
    hide Storage, Queued, HashesAre, AllExpected, Closing, Valid, Settled, VerifyMessage, VerifyBroadcast, ExpectedAt,
      Silents, Duplicate;
    CurrentChecked(p, s, c, st, i, d, m);
    VerifyStorage(p, s, st, m);
    VerifyQuiet(p, Store(st, m), m);
    var step := Verify(p, Store(st, m), m);
    SameQueues(p, s, c, Store(st, m), step.state, i, d + {m});
    SameHashes(p, s, c, Store(st, m), step.state, i);
    SameClosing(st, step.state);
  }

  /** A message of the current round may complete it. */
  lemma CurrentReaches(p: Protocol, s: Session, c: Script, st: State, i: nat, d: set<Message>, m: Message)
    requires Valid(p, s, c) && Sane(p, s) && AllExpected(p, s, c, d) && WaitsIn(p, s, c, st, i, d)
    requires ExpectedAt(p, s, c, i, m) && m !in d && m.number == Number(p, st.round)
    requires !Refuses(p, s, st, m) && m.number > 0
    ensures Whole(st) && Reached(p, s, c, Accept(p, s, st, m), d + {m})
  {
    InRoundIs(p, s, c, st, i, d);
    hide InRound, AllExpected, Finalize, CanAccept, Valid, HasRound, CompleteBelow, Bounded, Forwards, Verify,
      ExpectedAt, Reached, Storage, Settled, Queued, HashesAre, Duplicate, Store;
    Accepted(s, Number(p, st.round), m);
    assert Expected(p, s, c, m);
    ExpectedGrows(p, s, c, d, m);
    CurrentVerified(p, s, c, st, i, d, m);
    MoreDelivered(p, s, c, i, d, m);
    FinalizeReaches(p, s, c, Verify(p, Store(st, m), m).state, i, d + {m});
  }

  lemma SameClosing(a: State, b: State)
    requires Closing(a) && Quiet(a.log, b.log) && b.closed == a.closed && b.err == a.err && b.result == a.result
    ensures Closing(b)
  {
  }

  /** In a broadcast round a delivered broadcast has been stored. */
  lemma BroadcastStored(p: Protocol, s: Session, c: Script, st: State, i: nat, d: set<Message>, m: Message)
    requires Valid(p, s, c) && AllExpected(p, s, c, d) && InRound(p, s, c, st, i, d) && ExpectedAt(p, s, c, i, m)
    ensures !m.broadcast && p.isBroadcast(c.rounds[i]) && c.b(i, m.from) in d + {m} ==> m.from in st.round.broadcasts
  {
    assert Drained(p, s, st, m.from);
    RoundEntries(p, s, c, st, i, d, m.from);
    assert ValidRound(p, s, c, i);
  }

  /** Every accepted or refused message of the script keeps the correspondence. */
  lemma AcceptReaches(p: Protocol, s: Session, c: Script, st: State, d: set<Message>, m: Message)
    requires Valid(p, s, c) && Sane(p, s) && AllExpected(p, s, c, d) && Reached(p, s, c, st, d) && Expected(p, s, c, m)
    ensures Reached(p, s, c, Accept(p, s, st, m), d + {m})
  {
    hide AllExpected, Valid, CanAccept, InRound, ExpectedAt, Bounded, Forwards, Accept;
    if Ended(p, s, c, st, d) {
      assert Accept(p, s, st, m) == st by { EndedRefuses(p, s, st, m); }
      MoreDelivered(p, s, c, |c.rounds|, d, m);
      assert Ended(p, s, c, st, d + {m});
    } else {
      var i: nat :| WaitsIn(p, s, c, st, i, d);
      if m in d {
        AgainRefused(p, s, c, st, i, d, m);
        assert Accept(p, s, st, m) == st by { RefusedKeeps(p, s, st, m); }
        assert d + {m} == d;
      } else {
        NeverLate(p, s, c, st, i, d, m);
        var j: nat :| ExpectedAt(p, s, c, j, m);
        ExpectedNumbers(p, s, c, j, m);
        InRoundIs(p, s, c, st, i, d);
        if m.number == Number(p, st.round) {
          SameRound(p, s, c, i, j);
          CurrentReaches(p, s, c, st, i, d, m);
        } else {
          EarlyReaches(p, s, c, st, i, j, d, m);
        }
      }
    }
  }

  lemma RefusedKeeps(p: Protocol, s: Session, st: State, m: Message)
    requires Whole(st) && Bounded(p, s) && Refuses(p, s, st, m)
    ensures Accept(p, s, st, m) == st
  {
  }

  lemma EndedRefuses(p: Protocol, s: Session, st: State, m: Message)
    requires Whole(st) && Bounded(p, s) && Done(st)
    ensures Accept(p, s, st, m) == st
  {
  }

  ghost function SetOf(ms: seq<Message>): set<Message> {
    if |ms| == 0 then {} else SetOf(ms[..|ms| - 1]) + {ms[|ms| - 1]}
  }

  lemma {:induction false} SetOfMembers(ms: seq<Message>)
    ensures forall m :: m in SetOf(ms) <==> m in ms
  {
    if |ms| != 0 {
      SetOfMembers(ms[..|ms| - 1]);
      assert ms == ms[..|ms| - 1] + [ms[|ms| - 1]];
    }
  }

  /** Whatever the order and however often messages are repeated, the state corresponds to their set. */
  lemma {:induction false} RunReaches(p: Protocol, s: Session, c: Script, ms: seq<Message>)
    requires Valid(p, s, c) && Sane(p, s) && forall m :: m in ms ==> Expected(p, s, c, m)
    ensures Reached(p, s, c, Run(p, s, c.rounds[0], ms), SetOf(ms))
    ensures AllExpected(p, s, c, SetOf(ms))
  {
    SetOfMembers(ms);
    hide Accept, Finalize, Reached;
    if |ms| == 0 {
      StartReaches(p, s, c);
    } else {
      var before := ms[..|ms| - 1];
      RunReaches(p, s, c, before);
      AcceptReaches(p, s, c, Run(p, s, c.rounds[0], before), SetOf(before), ms[|ms| - 1]);
    }
  }

  lemma StartReaches(p: Protocol, s: Session, c: Script)
    requires Valid(p, s, c) && Sane(p, s)
    ensures Reached(p, s, c, Start(p, s, c.rounds[0]), {})
  {
    var st := Initial(p, s, c.rounds[0]);
    assert InRound(p, s, c, st, 0, {});
    hide InRound, Valid;
    FinalizeReaches(p, s, c, st, 0, {});
  }

  /** What a round has stored from one sender is determined by what was delivered. */
  lemma SlotDetermined(p: Protocol, s: Session, c: Script, st: State, i: nat, d: set<Message>, id: ID)
    requires Valid(p, s, c) && AllExpected(p, s, c, d) && InRound(p, s, c, st, i, d) && i > 0
    ensures var h := c.rounds[i];
            && (id in st.round.broadcasts <==> id in Others(s) && p.isBroadcast(h) && c.b(i, id) in d)
            && (id in st.round.broadcasts ==> Some(st.round.broadcasts[id]) == c.b(i, id).data)
            && (id in st.round.messages <==> id in Others(s) && p.expects(h) && c.m(i, id) in d &&
                                             (p.isBroadcast(h) ==> c.b(i, id) in d))
            && (id in st.round.messages ==> Some(st.round.messages[id]) == c.m(i, id).data)
  {
    assert SlotOk(p, s, st, id);
    assert id in s.parties ==> Drained(p, s, st, id);
    StorageQueues(p, s, st);
    hide Storage, Settled, Closing, Queued, HashesAre, AllExpected;
    var n := NumberAt(p, c, i);
    if id in st.round.broadcasts {
      Entry(s, st.broadcast, n, id);
    }
    if id in st.round.messages {
      Entry(s, st.messages, n, id);
      assert s.self !in st.messages[n];
    }
    if id in Others(s) {
      RoundEntries(p, s, c, st, i, d, id);
    }
  }

  /** Two protocols that differ at most in the order in which queues are read. */
  ghost predicate SameRules(p: Protocol, q: Protocol) {
    q == p.(order := q.order)
  }

  lemma {:induction false} SameCarried(p: Protocol, q: Protocol, s: Session, c: Script, i: nat)
    requires SameRules(p, q) && i < |c.rounds|
    ensures Carried(p, s, c, i) == Carried(q, s, c, i) && HashOf(p, s, c, i) == HashOf(q, s, c, i)
  {
    if i > 0 {
      SameCarried(p, q, s, c, i - 1);
    }
    assert OwnMessage(p, s, c, i) == OwnMessage(q, s, c, i);
  }

  lemma {:induction false} SameSent(p: Protocol, q: Protocol, s: Session, c: Script, i: nat)
    requires SameRules(p, q)
    ensures SentUpTo(p, s, c, i) == SentUpTo(q, s, c, i)
  {
    hide Carried;
    if 0 < i <= |c.sent| {
      SameSent(p, q, s, c, i - 1);
      if i < |c.rounds| {
        SameCarried(p, q, s, c, i);
      }
    }
  }

  lemma SameValid(p: Protocol, q: Protocol, s: Session, c: Script)
    requires SameRules(p, q) && Valid(p, s, c)
    ensures Valid(q, s, c)
  {
    forall i | 0 < i < |c.rounds| ensures 2 <= NumberAt(q, c, i) <= s.final && ValidRound(q, s, c, i) {
      assert 2 <= NumberAt(p, c, i) <= s.final && ValidRound(p, s, c, i);
      SameValidRound(p, q, s, c, i);
    }
    hide ValidRound;
    forall i, j | 0 <= i < j < |c.rounds| ensures NumberAt(q, c, i) < NumberAt(q, c, j) {
      assert NumberAt(p, c, i) < NumberAt(p, c, j);
    }
    forall i | 0 <= i < |c.rounds| ensures ValidStep(q, s, c, i) {
      assert ValidStep(p, s, c, i);
    }
  }

  lemma SameValidRound(p: Protocol, q: Protocol, s: Session, c: Script, i: nat)
    requires SameRules(p, q) && i < |c.rounds| && ValidRound(p, s, c, i)
    ensures ValidRound(q, s, c, i)
  {
    SameCarried(p, q, s, c, i);
    hide Carried;
  }

  lemma SameExpected(p: Protocol, q: Protocol, s: Session, c: Script, m: Message)
    requires SameRules(p, q) && Expected(p, s, c, m)
    ensures Expected(q, s, c, m)
  {
    var i: nat :| ExpectedAt(p, s, c, i, m);
    assert ExpectedAt(q, s, c, i, m);
  }

  lemma SameSlots(p: Protocol, q: Protocol, s: Session, c: Script, a: State, b: State, i: nat, d: set<Message>)
    requires SameRules(p, q) && Valid(p, s, c) && Valid(q, s, c) && AllExpected(p, s, c, d) && AllExpected(q, s, c, d)
    requires InRound(p, s, c, a, i, d) && InRound(q, s, c, b, i, d) && i > 0
    ensures a.round == b.round
  {
    hide Valid, AllExpected, Storage, Settled, Closing, Queued, HashesAre;
    forall id
      ensures id in a.round.broadcasts <==> id in b.round.broadcasts
      ensures id in a.round.messages <==> id in b.round.messages
      ensures id in a.round.broadcasts ==> a.round.broadcasts[id] == b.round.broadcasts[id]
      ensures id in a.round.messages ==> a.round.messages[id] == b.round.messages[id]
    {
      SlotDetermined(p, s, c, a, i, d, id);
      SlotDetermined(q, s, c, b, i, d, id);
    }
    assert a.round.broadcasts == b.round.broadcasts && a.round.messages == b.round.messages;
  }

  lemma SameComplete(p: Protocol, q: Protocol, s: Session, c: Script, d: set<Message>)
    requires SameRules(p, q)
    ensures forall i :: 0 <= i < |c.rounds| ==> (HasRound(p, s, c, i, d) <==> HasRound(q, s, c, i, d))
    ensures forall i: nat :: CompleteBelow(p, s, c, i, d) <==> CompleteBelow(q, s, c, i, d)
  {
    forall i: nat | i < |c.rounds| ensures HasRound(p, s, c, i, d) <==> HasRound(q, s, c, i, d) {}
    hide HasRound;
    forall i: nat ensures CompleteBelow(p, s, c, i, d) <==> CompleteBelow(q, s, c, i, d) {
      assert CompleteBelow(p, s, c, i, d) ==> forall j :: 0 <= j < i && j < |c.rounds| ==> HasRound(q, s, c, j, d);
      assert CompleteBelow(q, s, c, i, d) ==> forall j :: 0 <= j < i && j < |c.rounds| ==> HasRound(p, s, c, j, d);
    }
  }

  /** The set of delivered messages determines the result, or the round and what it has stored. */
  lemma SameReached(p: Protocol, q: Protocol, s: Session, c: Script, a: State, b: State, d: set<Message>)
    requires SameRules(p, q) && Valid(p, s, c) && Valid(q, s, c) && AllExpected(p, s, c, d) && AllExpected(q, s, c, d)
    requires Reached(p, s, c, a, d) && Reached(q, s, c, b, d)
    ensures a.result == b.result && a.err == b.err && (c.end.Success? ==> a.err.None?)
    ensures a.round == b.round && a.out == b.out
  {
    SameComplete(p, q, s, c, d);
    hide Valid, AllExpected, Storage, Settled, Closing, Queued, HashesAre, Whole, SentUpTo;
    SameSent(p, q, s, c, |c.rounds|);
    if !Ended(p, s, c, a, d) {
      var i: nat :| WaitsIn(p, s, c, a, i, d);
      assert !Ended(q, s, c, b, d);
      var j: nat :| WaitsIn(q, s, c, b, j, d);
      assert i == j && i > 0;
      SameSent(p, q, s, c, i);
      SameSlots(p, q, s, c, a, b, i, d);
    }
  }

  lemma FullRound(p: Protocol, s: Session, c: Script, i: nat, d: set<Message>)
    requires Valid(p, s, c) && i < |c.rounds| && forall m :: Expected(p, s, c, m) ==> m in d
    ensures HasRound(p, s, c, i, d)
  {
    if i > 0 {
      assert ValidRound(p, s, c, i);
      forall id | id in Others(s)
        ensures (p.isBroadcast(c.rounds[i]) ==> c.b(i, id) in d) && (p.expects(c.rounds[i]) ==> c.m(i, id) in d)
      {
        assert p.isBroadcast(c.rounds[i]) ==> ExpectedAt(p, s, c, i, c.b(i, id));
        assert p.expects(c.rounds[i]) ==> ExpectedAt(p, s, c, i, c.m(i, id));
      }
    }
  }

  /**
    Any two deliveries of the same messages, to handlers that read their queues in any two orders, end with the
    same result, or wait in the same round with the same contents, and have sent the same messages.
   */
  lemma OrderIndependence(p: Protocol, q: Protocol, s: Session, c: Script, ms: seq<Message>, ns: seq<Message>)
    requires SameRules(p, q) && Valid(p, s, c) && Sane(p, s) && Sane(q, s)
    requires (forall m :: m in ms ==> Expected(p, s, c, m)) && forall m :: m in ms <==> m in ns
    ensures var a, b := Run(p, s, c.rounds[0], ms), Run(q, s, c.rounds[0], ns);
            && a.result == b.result && a.err == b.err && a.round == b.round && a.out == b.out
            && (c.end.Success? ==> a.err.None?)
  {
    SameValid(p, q, s, c);
    assert Bounded(p, s) && Bounded(q, s) && |c.rounds| > 0;
    hide Run, Valid, Sane, Bounded;
    SetOfMembers(ms);
    SetOfMembers(ns);
    assert SetOf(ms) == SetOf(ns);
    forall m | m in ns ensures Expected(q, s, c, m) {
      SameExpected(p, q, s, c, m);
    }
    RunReaches(p, s, c, ms);
    RunReaches(q, s, c, ns);
    SameReached(p, q, s, c, Run(p, s, c.rounds[0], ms), Run(q, s, c.rounds[0], ns), SetOf(ms));
  }

  /** Once everything has been delivered, in any order, the handler ends as the script does. */
  lemma AllDelivered(p: Protocol, s: Session, c: Script, ms: seq<Message>)
    requires Valid(p, s, c) && Sane(p, s) && forall m :: m in ms <==> Expected(p, s, c, m)
    ensures EndsAs(c.end, Run(p, s, c.rounds[0], ms)) && Run(p, s, c.rounds[0], ms).out == SentInAll(p, s, c)
  {
    RunReaches(p, s, c, ms);
    SetOfMembers(ms);
    var st, d := Run(p, s, c.rounds[0], ms), SetOf(ms);
    hide Run, InRound, Sane, ValidRound, ValidStep;
    forall i: nat | i < |c.rounds| ensures HasRound(p, s, c, i, d) {
      FullRound(p, s, c, i, d);
    }
  }
}
