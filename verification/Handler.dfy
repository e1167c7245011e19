/**
  The round engine. A protocol is given by what its rounds check and return; a round keeps, for every
  sender, the broadcast and the message it has stored. Transitions are functions on the handler's state.
 */
module Handler {
  import opened Party
  import Rounds

  type Data = seq<Byte>
  type Digest = seq<Byte>
  type Value = Rounds.Value
  type Header = Rounds.Header

  /** A wire message. No recipient means everybody; round number 0 means an abort. */
  datatype Message = Message(ssid: Data, from: ID, to: Option<ID>, protocol: Data, number: nat,
                             data: Option<Data>, broadcast: bool, verification: Option<Digest>)

  datatype Outgoing = Outgoing(to: Option<ID>, number: nat, data: Data, broadcast: bool)

  /** What Finalize returns: an error, a nil round, another round, an abort round or the output round. */
  datatype Outcome =
    | Failed(error: string)
    | NoRound
    | Next(header: Header, msgs: seq<Outgoing>)
    | Aborted(reason: Option<string>, culprits: seq<ID>, msgs: seq<Outgoing>)
    | Finished(result: Option<Value>, msgs: seq<Outgoing>)

  /**
    A protocol, seen from the handler. okB and okM are the verify and store checks; order is the
    order in which the queue of a round is read when that round starts; echo hashes all broadcasts.
   */
  datatype Protocol = Protocol(
    number: Header -> nat, isBroadcast: Header -> bool, expects: Header -> bool,
    okB: (Header, ID, Data) -> bool, okM: (Header, ID, Option<Data>, Data) -> bool,
    finalize: (Header, map<ID, Data>, map<ID, Data>) -> Outcome,
    order: nat -> seq<ID>, echo: (Header, seq<Message>) -> Digest)

  datatype Session = Session(self: ID, parties: seq<ID>, name: Data, ssid: Data, final: nat)

  datatype Failure = Failure(culprits: seq<ID>, error: string)

  /** The current round, or the end of the protocol: an output or abort round, whose number is 0. */
  datatype Round = Running(header: Header, broadcasts: map<ID, Data>, messages: map<ID, Data>) | Over

  type Queue = map<nat, map<ID, Message>>

  /** The history of what was stored in which round, and of silent ends. */
  datatype Event = StoredBroadcast(number: nat, from: ID) | StoredMessage(number: nat, from: ID)
                 | Finalized(number: nat) | Silent

  datatype State = State(round: Round, rounds: map<nat, Header>, err: Option<Failure>, result: Option<Value>,
                         messages: Queue, broadcast: Queue, hashes: map<nat, Digest>,
                         out: seq<Message>, closed: nat, log: seq<Event>)

  /** A new round number never exceeds the final one. */
  ghost predicate Bounded(p: Protocol, s: Session) {
    forall h, b, m :: p.finalize(h, b, m).Next? ==> p.number(p.finalize(h, b, m).header) <= s.final
  }

  function Number(p: Protocol, r: Round): (n: nat) {
    if r.Over? then 0 else p.number(r.header)
  }

  function Get<V>(m: map<nat, V>, n: int): (r: Option<V>) {
    if n >= 0 && n in m then Some(m[n]) else None
  }

  function Lookup<V>(m: map<ID, V>, id: ID): (r: Option<V>) {
    if id in m then Some(m[id]) else None
  }

  // ------------------------------------------------------------------- acceptance

  predicate IsFor(m: Message, id: ID) {
    m.from != id && (m.to.None? || m.to.value == id)
  }

  predicate CanAccept(s: Session, number: nat, m: Message) {
    && IsFor(m, s.self)
    && m.protocol == s.name && m.ssid == s.ssid
    && m.from in s.parties
    && m.data.Some?
    && m.number <= s.final
    && !(m.number < number && m.number > 0)
  }

  predicate Held(q: Queue, m: Message) {
    m.number !in q || m.from in q[m.number]
  }

  predicate Duplicate(st: State, m: Message) {
    m.number != 0 && Held(if m.broadcast then st.broadcast else st.messages, m)
  }

  function Put(q: Queue, m: Message): (r: Queue) {
    if Held(q, m) then q else q[m.number := q[m.number][m.from := m]]
  }

  function Store(st: State, m: Message): (r: State) {
    if m.broadcast then st.(broadcast := Put(st.broadcast, m)) else st.(messages := Put(st.messages, m))
  }

  // ----------------------------------------------------------------------- abort

  function AbortMessage(s: Session, error: string): (m: Message) {
    Message(s.ssid, s.self, None, s.name, 0, Some(AbortText(error)), false, None)
  }

  /** The bytes of an error text. */
  const AbortText: string -> Data

  /** abort: the abort message is dropped when the channel is full. */
  function Abort(s: Session, st: State, error: Option<string>, culprits: seq<ID>): (r: State) {
    match error
    case Some(e) =>
      st.(err := Some(Failure(culprits, e)), closed := st.closed + 1,
          out := if |st.out| < 2 * |s.parties| then st.out + [AbortMessage(s, e)] else st.out)
    case None =>
      st.(closed := st.closed + 1, log := if st.result.Some? then st.log else st.log + [Silent])
  }

  // ---------------------------------------------------------------- verification

  datatype Step = Step(state: State, error: Option<string>)

  /** Verification changes what the round has stored, and nothing else. */
  predicate Keeps(before: State, after: State) {
    && before.round.Running? && after.round.Running? && after.round.header == before.round.header
    && after == before.(round := after.round, log := after.log)
  }

  /** verifyMessage for a message of the current round. */
  function VerifyMessage(p: Protocol, st: State, m: Message): (r: Step)
    requires st.round.Running? && m.data.Some?
    ensures Keeps(st, r.state)
  {
    var h := st.round.header;
    if p.isBroadcast(h) && (m.number !in st.broadcast || m.from !in st.broadcast[m.number]) then Step(st, None)
    else if !p.expects(h) then Step(st, Some("failed to unmarshal"))
    else if !p.okM(h, m.from, Lookup(st.round.broadcasts, m.from), m.data.value) then Step(st, Some("invalid message"))
    else Step(st.(round := st.round.(messages := st.round.messages[m.from := m.data.value]),
                  log := st.log + [StoredMessage(m.number, m.from)]), None)
  }

  /** The broadcast half of verifyBroadcastMessage. */
  function StoreBroadcast(p: Protocol, st: State, m: Message): (r: Step)
    requires st.round.Running? && m.data.Some?
    ensures Keeps(st, r.state)
  {
    var h := st.round.header;
    if !p.isBroadcast(h) then Step(st, Some("got broadcast message when none was expected"))
    else if !p.okB(h, m.from, m.data.value) then Step(st, Some("invalid broadcast"))
    else Step(st.(round := st.round.(broadcasts := st.round.broadcasts[m.from := m.data.value]),
                  log := st.log + [StoredBroadcast(m.number, m.from)]), None)
  }

  /** verifyBroadcastMessage, which goes on to the queued message of the same sender. */
  function VerifyBroadcast(p: Protocol, st: State, m: Message): (r: Step)
    requires st.round.Running? && m.data.Some? && Whole(st)
    ensures Keeps(st, r.state)
  {
    var r := StoreBroadcast(p, st, m);
    if r.error.Some? || !p.expects(st.round.header) then r
    else if m.number in st.messages && m.from in st.messages[m.number] then
      VerifyMessage(p, r.state, st.messages[m.number][m.from])
    else r
  }

  /** Every queued message has data. */
  predicate Filled(q: Queue) {
    forall n :: n in q ==> forall id :: id in q[n] ==> q[n][id].data.Some?
  }

  predicate Whole(st: State) {
    Filled(st.messages) && Filled(st.broadcast)
  }

  /** The loop over the queue of a round that has just become current. */
  function ReadQueue(p: Protocol, s: Session, st: State, ids: seq<ID>): (r: (State, Option<Failure>))
    requires st.round.Running? && Whole(st)
    decreases |ids|
  {
    if |ids| == 0 then (st, None) else
    var step := ReadOne(p, s, st, ids[0]);
    if step.error.Some? then (step.state, Some(Failure([ids[0]], step.error.value)))
    else ReadQueue(p, s, step.state, ids[1..])
  }

  /** One sender of that loop: its broadcast in a broadcast round, else its message. */
  function ReadOne(p: Protocol, s: Session, st: State, id: ID): (r: Step)
    requires st.round.Running? && Whole(st)
    ensures Keeps(st, r.state)
  {
    var n := p.number(st.round.header);
    if p.isBroadcast(st.round.header) then
      if id == s.self || n !in st.broadcast || id !in st.broadcast[n] then Step(st, None)
      else VerifyBroadcast(p, st, st.broadcast[n][id])
    else
      if n !in st.messages || id !in st.messages[n] then Step(st, None)
      else VerifyMessage(p, st, st.messages[n][id])
  }

  // ------------------------------------------------------------------- finalizing

  /** Everything the current round waits for has been queued. */
  predicate HasBroadcasts(p: Protocol, s: Session, st: State)
    requires st.round.Running?
  {
    var n := p.number(st.round.header);
    n in st.broadcast ==> forall id :: id in s.parties ==> id in st.broadcast[n]
  }

  predicate HasMessages(p: Protocol, s: Session, st: State)
    requires st.round.Running?
  {
    var n := p.number(st.round.header);
    n in st.messages ==> forall id :: id in s.parties && id != s.self ==> id in st.messages[n]
  }

  predicate ReceivedAll(p: Protocol, s: Session, st: State)
    requires st.round.Running?
  {
    var h := st.round.header;
    && (p.isBroadcast(h) ==> HasBroadcasts(p, s, st))
    && (p.expects(h) && !(p.isBroadcast(h) && p.number(h) !in st.broadcast) ==> HasMessages(p, s, st))
  }

  /** The broadcasts of a round in the order of the parties. */
  function Listed(q: map<ID, Message>, ids: seq<ID>): (r: seq<Message>)
    requires forall id :: id in ids ==> id in q
    ensures |r| == |ids| && forall i :: 0 <= i < |ids| ==> r[i] == q[ids[i]]
  {
    seq(|ids|, i requires 0 <= i < |ids| => q[ids[i]])
  }

  /** The side effect of receivedAll: once all broadcasts are in, their hash is kept. */
  function WithHash(p: Protocol, s: Session, st: State): (r: State)
    requires st.round.Running?
    ensures r == st.(hashes := r.hashes)
  {
    var h := st.round.header;
    var n := p.number(h);
    if p.isBroadcast(h) && n in st.broadcast && HasBroadcasts(p, s, st) && n !in st.hashes then
      st.(hashes := st.hashes[n := p.echo(h, Listed(st.broadcast[n], s.parties))])
    else st
  }

  predicate AllCarry(q: Queue, n: nat, d: Digest) {
    n in q ==> forall id :: id in q[n] ==> q[n][id].verification == Some(d)
  }

  /** checkBroadcastHash */
  predicate HashesMatch(p: Protocol, st: State)
    requires st.round.Running?
  {
    var n := p.number(st.round.header);
    var previous := Get(st.hashes, n - 1);
    previous.None? || (AllCarry(st.messages, n, previous.value) && AllCarry(st.broadcast, n, previous.value))
  }

  /** An outgoing message with its header. */
  function Addressed(s: Session, m: Outgoing, verification: Option<Digest>): (r: Message) {
    Message(s.ssid, s.self, m.to, s.name, m.number, Some(m.data), m.broadcast, verification)
  }

  /** The loop that forwards the messages of Finalize; own broadcasts are queued as well. */
  function Forward(s: Session, st: State, msgs: seq<Outgoing>, verification: Option<Digest>): (r: State)
    ensures r == st.(broadcast := r.broadcast, out := r.out)
    ensures Whole(st) ==> Whole(r)
  {
    if |msgs| == 0 then st else
    var before := Forward(s, st, msgs[..|msgs| - 1], verification);
    var m := Addressed(s, msgs[|msgs| - 1], verification);
    before.(broadcast := if m.broadcast then Put(before.broadcast, m) else before.broadcast, out := before.out + [m])
  }

  /** How many round numbers can still be entered. */
  ghost function Unseen(s: Session, st: State): nat {
    |set n: nat | n <= s.final && n !in st.rounds|
  }

  lemma SeeingDecreases(s: Session, a: State, b: State, n: nat, h: Header)
    requires n <= s.final && n !in a.rounds && b.rounds == a.rounds[n := h]
    ensures Unseen(s, b) < Unseen(s, a)
  {
    var before := set k: nat | k <= s.final && k !in a.rounds;
    var after := set k: nat | k <= s.final && k !in b.rounds;
    assert n in before && after == before - {n};
  }

  ghost predicate Ready(p: Protocol, s: Session, st: State) {
    st.round.Running? && Whole(st) && Bounded(p, s)
  }

  lemma {:induction false} ReadQueueKeeps(p: Protocol, s: Session, st: State, ids: seq<ID>)
    requires st.round.Running? && Whole(st)
    ensures Keeps(st, ReadQueue(p, s, st, ids).0)
    decreases |ids|
  {
    if |ids| != 0 {
      ReadQueueKeeps(p, s, ReadOne(p, s, st, ids[0]).state, ids[1..]);
    }
  }

  /** The state when Finalize of the current round is called. */
  function Finalizing(p: Protocol, s: Session, st: State): (r: State)
    requires st.round.Running?
  {
    var hashed := WithHash(p, s, st);
    hashed.(log := hashed.log + [Finalized(p.number(st.round.header))])
  }

  function OutcomeOf(p: Protocol, st: State): (o: Outcome)
    requires st.round.Running?
  {
    p.finalize(st.round.header, st.round.broadcasts, st.round.messages)
  }

  /** The state in which a new round starts to read its queue. */
  function Entered(p: Protocol, s: Session, st: State, h: Header, msgs: seq<Outgoing>): (r: State) {
    var n := p.number(h);
    var sent := Forward(s, st, msgs, Get(st.hashes, n - 1));
    if n in sent.rounds then sent
    else sent.(rounds := sent.rounds[n := h], round := Running(h, map[], map[]))
  }

  datatype Progress = Stop(state: State) | Again(state: State)

  /** A new round reads its queue and, if nothing fails, tries to finalize in turn. */
  function Enter(p: Protocol, s: Session, now: State, h: Header, msgs: seq<Outgoing>): (r: Progress)
    requires Whole(now)
    ensures Whole(r.state)
  {
    var n := p.number(h);
    var entered := Entered(p, s, now, h, msgs);
    if n in now.rounds then Stop(entered)
    else
      ReadQueueKeeps(p, s, entered, p.order(n));
      var (read, failure) := ReadQueue(p, s, entered, p.order(n));
      if failure.Some? then Stop(Abort(s, read, Some(failure.value.error), failure.value.culprits)) else Again(read)
  }

  /** What happens after Finalize of the current round has been called. */
  function Conclude(p: Protocol, s: Session, now: State, outcome: Outcome): (r: Progress)
    requires Whole(now)
    ensures Whole(r.state)
  {
    match outcome
    case Failed(e) => Stop(Abort(s, now, Some(e), [s.self]))
    case NoRound => Stop(Abort(s, now, None, [s.self]))
    case Aborted(reason, culprits, msgs) =>
      Stop(Abort(s, Forward(s, now, msgs, None).(round := Over), reason, culprits))
    case Finished(result, msgs) =>
      Stop(Abort(s, Forward(s, now, msgs, None).(round := Over, result := result), None, []))
    case Next(h, msgs) => Enter(p, s, now, h, msgs)
  }

  /** finalize up to its recursive call. */
  function Advance(p: Protocol, s: Session, st: State): (r: Progress)
    requires st.round.Running? && Whole(st)
    ensures Whole(r.state)
  {
    if !ReceivedAll(p, s, st) then Stop(WithHash(p, s, st))
    else if !HashesMatch(p, WithHash(p, s, st)) then
      Stop(Abort(s, WithHash(p, s, st), Some("broadcast verification failed"), []))
    else Conclude(p, s, Finalizing(p, s, st), OutcomeOf(p, st))
  }

  /** Going on means that a round number was entered for the first time. */
  lemma AdvanceEnters(p: Protocol, s: Session, st: State)
    requires st.round.Running? && Whole(st) && Bounded(p, s) && Advance(p, s, st).Again?
    ensures var next := Advance(p, s, st).state;
            next.round.Running? && Unseen(s, next) < Unseen(s, st)
  {
    var o := OutcomeOf(p, st);
    var now := Finalizing(p, s, st);
    var entered := Entered(p, s, now, o.header, o.msgs);
    ReadQueueKeeps(p, s, entered, p.order(p.number(o.header)));
    SeeingDecreases(s, st, Advance(p, s, st).state, p.number(o.header), o.header);
  }

  /** finalize, with its recursion through the rounds for which everything has already arrived. */
  function Finalize(p: Protocol, s: Session, st: State): (r: State)
    requires Ready(p, s, st)
    ensures Whole(r)
    decreases Unseen(s, st)
  {
    var step := Advance(p, s, st);
    if step.Stop? then step.state
    else
      AdvanceEnters(p, s, st);
      Finalize(p, s, step.state)
  }

  // ---------------------------------------------------------------------- handler

  /** newQueue: rounds 2 to the final one can be queued for. */
  function NewQueue(final: nat): (q: Queue)
    ensures forall n :: n in q <==> 2 <= n <= final
    ensures forall n :: n in q ==> q[n] == map[]
  {
    if final < 2 then map[] else NewQueue(final - 1)[final := map[]]
  }

  function Initial(p: Protocol, s: Session, h: Header): (st: State) {
    State(Running(h, map[], map[]), map[p.number(h) := h], None, None, NewQueue(s.final), NewQueue(s.final),
          map[], [], 0, [])
  }

  /** NewMultiHandler */
  function Start(p: Protocol, s: Session, h: Header): (st: State)
    requires Bounded(p, s)
    ensures Whole(st)
  {
    Finalize(p, s, Initial(p, s, h))
  }

  predicate Refuses(p: Protocol, s: Session, st: State, m: Message) {
    !CanAccept(s, Number(p, st.round), m) || st.err.Some? || st.result.Some? || Duplicate(st, m)
  }

  /** Accept for a message that is not refused, up to the call of finalize. */
  function Verify(p: Protocol, st: State, m: Message): (r: Step)
    requires st.round.Running? && m.data.Some? && Whole(st)
    ensures Keeps(st, r.state)
  {
    if m.broadcast then VerifyBroadcast(p, st, m) else VerifyMessage(p, st, m)
  }

  function Accept(p: Protocol, s: Session, st: State, m: Message): (r: State)
    requires Whole(st) && Bounded(p, s)
    ensures Whole(r)
  {
    if Refuses(p, s, st, m) then st
    else if m.number == 0 then Abort(s, st, Some("aborted by other party"), [m.from])
    else
      var stored := Store(st, m);
      if Number(p, st.round) != m.number then stored
      else
        var step := Verify(p, stored, m);
        if step.error.Some? then Abort(s, step.state, step.error, [m.from])
        else Finalize(p, s, step.state)
  }

  /** The state after a handler has been given messages one after the other. */
  function Run(p: Protocol, s: Session, h: Header, ms: seq<Message>): (r: State)
    requires Bounded(p, s)
    ensures Whole(r)
  {
    if |ms| == 0 then Start(p, s, h) else Accept(p, s, Run(p, s, h, ms[..|ms| - 1]), ms[|ms| - 1])
  }
}
