/** What holds in every run of the handler: closing of the channel, growing round numbers, the buffer. */
module HandlerRuns {
  import opened Party
  import opened Handler

  // --------------------------------------------------------------------- closing

  ghost function Silents(log: seq<Event>): nat {
    if |log| == 0 then 0
    else Silents(log[..|log| - 1]) + if log[|log| - 1].Silent? then 1 else 0
  }

  ghost predicate Done(st: State) {
    st.err.Some? || st.result.Some?
  }

  /** Every close is accounted for by an error, a result, or a silent end. */
  ghost predicate Closing(st: State) {
    && st.closed == Silents(st.log) + (if Done(st) then 1 else 0)
    && !(st.err.Some? && st.result.Some?)
  }

  /** The log grows by events that are not silent. */
  ghost predicate Quiet(before: seq<Event>, after: seq<Event>) {
    Silents(after) == Silents(before)
  }

  lemma QuietAppend(log: seq<Event>, e: Event)
    ensures Silents(log + [e]) == Silents(log) + if e.Silent? then 1 else 0
  {
    assert (log + [e])[..|log|] == log;
  }

  lemma VerifyQuiet(p: Protocol, st: State, m: Message)
    requires st.round.Running? && m.data.Some? && Whole(st)
    ensures Quiet(st.log, VerifyMessage(p, st, m).state.log)
    ensures Quiet(st.log, VerifyBroadcast(p, st, m).state.log)
  {
    hide Silents;
    QuietAppend(st.log, StoredMessage(m.number, m.from));
    QuietAppend(st.log, StoredBroadcast(m.number, m.from));
    var stored := StoreBroadcast(p, st, m).state;
    if m.number in st.messages && m.from in st.messages[m.number] {
      var held := st.messages[m.number][m.from];
      QuietAppend(stored.log, StoredMessage(held.number, held.from));
    }
  }

  lemma {:induction false} ReadQuiet(p: Protocol, s: Session, st: State, ids: seq<ID>)
    requires st.round.Running? && Whole(st)
    ensures Quiet(st.log, ReadQueue(p, s, st, ids).0.log)
    decreases |ids|
  {
    hide Silents, VerifyMessage, VerifyBroadcast;
    if |ids| != 0 {
      var n := p.number(st.round.header);
      if n in st.broadcast && ids[0] in st.broadcast[n] {
        VerifyQuiet(p, st, st.broadcast[n][ids[0]]);
      }
      if n in st.messages && ids[0] in st.messages[n] {
        VerifyQuiet(p, st, st.messages[n][ids[0]]);
      }
      ReadQuiet(p, s, ReadOne(p, s, st, ids[0]).state, ids[1..]);
    }
  }

  /** An outcome after which the channel is closed although nothing was set. */
  ghost predicate SilentOutcome(o: Outcome) {
    o.NoRound? || (o.Aborted? && o.reason.None?) || (o.Finished? && o.result.None?)
  }

  /** A protocol that never ends silently. */
  ghost predicate Loud(p: Protocol) {
    forall h, b, m :: !SilentOutcome(p.finalize(h, b, m))
  }

  ghost predicate Concludes(p: Protocol, s: Session, st: State)
    requires st.round.Running?
  {
    ReceivedAll(p, s, st) && HashesMatch(p, WithHash(p, s, st))
  }

  lemma EnterClosing(p: Protocol, s: Session, now: State, h: Header, msgs: seq<Outgoing>)
    requires Whole(now) && Closing(now) && !Done(now)
    ensures var r := Enter(p, s, now, h, msgs);
            Closing(r.state) && (r.Again? ==> !Done(r.state)) && Quiet(now.log, r.state.log)
  {
    hide Silents, Forward, ReadQueue;
    var entered := Entered(p, s, now, h, msgs);
    if p.number(h) !in now.rounds {
      ReadQueueKeeps(p, s, entered, p.order(p.number(h)));
      ReadQuiet(p, s, entered, p.order(p.number(h)));
    }
  }

  lemma ConcludeClosing(p: Protocol, s: Session, now: State, o: Outcome)
    requires Whole(now) && Closing(now) && !Done(now)
    ensures var r := Conclude(p, s, now, o);
            && Closing(r.state) && (r.Again? ==> !Done(r.state))
            && Silents(r.state.log) == Silents(now.log) + if SilentOutcome(o) then 1 else 0
  {
    hide Silents, Enter, Forward;
    QuietAppend(now.log, Silent);
    match o
    case Next(h, msgs) => EnterClosing(p, s, now, h, msgs);
    case _ =>
  }

  /** One finalize keeps the account, and ends silently exactly on a silent outcome. */
  lemma AdvanceClosing(p: Protocol, s: Session, st: State)
    requires st.round.Running? && Whole(st) && Closing(st) && !Done(st)
    ensures var r := Advance(p, s, st);
            && Closing(r.state) && (r.Again? ==> !Done(r.state))
            && Silents(r.state.log) == Silents(st.log) +
               if Concludes(p, s, st) && SilentOutcome(OutcomeOf(p, st)) then 1 else 0
  {
    hide Silents, Conclude, ReceivedAll, HashesMatch;
    if Concludes(p, s, st) {
      QuietAppend(st.log, Finalized(p.number(st.round.header)));
      ConcludeClosing(p, s, Finalizing(p, s, st), OutcomeOf(p, st));
    }
  }

  lemma AgainIsNext(p: Protocol, s: Session, st: State)
    requires st.round.Running? && Whole(st) && Advance(p, s, st).Again?
    ensures Concludes(p, s, st) && OutcomeOf(p, st).Next?
  {
  }

  /** Some round that is finalized from here on, as long as rounds follow each other, has a silent outcome. */
  ghost predicate MeetsSilence(p: Protocol, s: Session, st: State)
    requires Ready(p, s, st)
    decreases Unseen(s, st)
  {
    || (Concludes(p, s, st) && SilentOutcome(OutcomeOf(p, st)))
    || (Advance(p, s, st).Again? && (AdvanceEnters(p, s, st); MeetsSilence(p, s, Advance(p, s, st).state)))
  }

  lemma {:induction false} FinalizeClosing(p: Protocol, s: Session, st: State)
    requires Ready(p, s, st) && Closing(st) && !Done(st)
    ensures Closing(Finalize(p, s, st))
    ensures Silents(Finalize(p, s, st).log) == Silents(st.log) + if MeetsSilence(p, s, st) then 1 else 0
    decreases Unseen(s, st)
  {
    if Advance(p, s, st).Again? {
      AgainIsNext(p, s, st);
    }
    hide Advance, Silents, Concludes, OutcomeOf;
    AdvanceClosing(p, s, st);
    if Advance(p, s, st).Again? {
      AdvanceEnters(p, s, st);
      FinalizeClosing(p, s, Advance(p, s, st).state);
    }
  }

  /** Accepting m reaches finalize, and from there a silent outcome. */
  ghost predicate AcceptsSilence(p: Protocol, s: Session, st: State, m: Message)
    requires Whole(st) && Bounded(p, s)
  {
    && !Refuses(p, s, st, m) && m.number != 0 && Number(p, st.round) == m.number
    && Verify(p, Store(st, m), m).error.None?
    && MeetsSilence(p, s, Verify(p, Store(st, m), m).state)
  }

  lemma AcceptClosing(p: Protocol, s: Session, st: State, m: Message)
    requires Whole(st) && Bounded(p, s) && Closing(st)
    ensures Closing(Accept(p, s, st, m))
    ensures Silents(Accept(p, s, st, m).log) == Silents(st.log) + if AcceptsSilence(p, s, st, m) then 1 else 0
  {
    hide Silents, Finalize, VerifyMessage, VerifyBroadcast, CanAccept, MeetsSilence;
    if !Refuses(p, s, st, m) && m.number != 0 {
      var stored := Store(st, m);
      if Number(p, st.round) == m.number {
        assert m.data.Some? by { Accepted(s, Number(p, st.round), m); }
        VerifyQuiet(p, stored, m);
        var step := Verify(p, stored, m);
        if step.error.None? {
          FinalizeClosing(p, s, step.state);
        }
      }
    }
  }

  lemma Accepted(s: Session, number: nat, m: Message)
    requires CanAccept(s, number, m)
    ensures m.data.Some? && m.from in s.parties && m.from != s.self && m.number <= s.final
    ensures m.number == 0 || m.number >= number
  {
  }

  /** Some message of the run, or its start, leads to a silent outcome. */
  ghost predicate RunMeetsSilence(p: Protocol, s: Session, h: Header, ms: seq<Message>)
    requires Bounded(p, s)
  {
    if |ms| == 0 then MeetsSilence(p, s, Initial(p, s, h))
    else
      || RunMeetsSilence(p, s, h, ms[..|ms| - 1])
      || AcceptsSilence(p, s, Run(p, s, h, ms[..|ms| - 1]), ms[|ms| - 1])
  }

  /** In every run each close is accounted for, and a close was silent exactly when an outcome was. */
  lemma {:induction false} RunClosing(p: Protocol, s: Session, h: Header, ms: seq<Message>)
    requires Bounded(p, s)
    ensures Closing(Run(p, s, h, ms))
    ensures Silents(Run(p, s, h, ms).log) > 0 <==> RunMeetsSilence(p, s, h, ms)
  {
    hide Accept, Finalize, Silents, MeetsSilence, AcceptsSilence;
    if |ms| == 0 {
      NoSilents();
      FinalizeClosing(p, s, Initial(p, s, h));
    } else {
      RunClosing(p, s, h, ms[..|ms| - 1]);
      AcceptClosing(p, s, Run(p, s, h, ms[..|ms| - 1]), ms[|ms| - 1]);
    }
  }

  lemma NoSilents()
    ensures Silents([]) == 0
  {
  }

  /** The channel has been closed exactly once if there is an error or a result, and never otherwise. */
  ghost predicate ClosedOnce(st: State) {
    st.closed == if Done(st) then 1 else 0
  }

  /** In every run the channel is closed once, exactly when something is set, iff no outcome on the way was silent. */
  lemma ClosedOnceIff(p: Protocol, s: Session, h: Header, ms: seq<Message>)
    requires Bounded(p, s)
    ensures ClosedOnce(Run(p, s, h, ms)) <==> !RunMeetsSilence(p, s, h, ms)
  {
    RunClosing(p, s, h, ms);
  }

  lemma {:induction false} LoudMeets(p: Protocol, s: Session, st: State)
    requires Ready(p, s, st) && Loud(p)
    ensures !MeetsSilence(p, s, st)
    decreases Unseen(s, st)
  {
    hide Advance;
    if Advance(p, s, st).Again? {
      AdvanceEnters(p, s, st);
      LoudMeets(p, s, Advance(p, s, st).state);
    }
  }

  /** A protocol without silent outcomes closes the channel once, in all of its runs. */
  lemma {:induction false} LoudClosedOnce(p: Protocol, s: Session, h: Header, ms: seq<Message>)
    requires Bounded(p, s) && Loud(p)
    ensures !RunMeetsSilence(p, s, h, ms) && ClosedOnce(Run(p, s, h, ms))
  {
    hide Run, MeetsSilence, Verify;
    if |ms| == 0 {
      LoudMeets(p, s, Initial(p, s, h));
    } else {
      var before, m := Run(p, s, h, ms[..|ms| - 1]), ms[|ms| - 1];
      LoudClosedOnce(p, s, h, ms[..|ms| - 1]);
      if AcceptsSilence(p, s, before, m) {
        LoudMeets(p, s, Verify(p, Store(before, m), m).state);
      }
    }
    ClosedOnceIff(p, s, h, ms);
  }

  /** A protocol that can end silently breaks the rule: here its first round returns a nil round. */
  lemma SilentCounterexample(h: Header, id: ID)
    ensures exists p: Protocol, s: Session :: Bounded(p, s) && !ClosedOnce(Run(p, s, h, []))
  {
    var p := Protocol((h: Header) => 1, (h: Header) => false, (h: Header) => false,
                      (h: Header, i: ID, d: Data) => true, (h: Header, i: ID, b: Option<Data>, d: Data) => true,
                      (h: Header, b: map<ID, Data>, m: map<ID, Data>) => NoRound,
                      (n: nat) => [id], (h: Header, ms: seq<Message>) => []);
    var s := Session(id, [id], [], [], 1);
    var st := Initial(p, s, h);
    assert Advance(p, s, st) == Stop(Abort(s, Finalizing(p, s, st), None, [s.self]));
    assert Run(p, s, h, []) == Finalize(p, s, st);
    assert Bounded(p, s) && !ClosedOnce(Run(p, s, h, []));
  }

  // ---------------------------------------------------------------------- rounds

  /** A round is followed by itself or by one with a higher number. */
  ghost predicate Forwards(p: Protocol) {
    forall h, b, m :: p.finalize(h, b, m).Next? ==> p.number(p.finalize(h, b, m).header) >= p.number(h)
  }

  /** The current round is the latest one entered. */
  ghost predicate Latest(p: Protocol, st: State) {
    st.round.Running? ==>
      var n := p.number(st.round.header);
      n in st.rounds && st.rounds[n] == st.round.header && forall k :: k in st.rounds ==> k <= n
  }

  /** Over is final; a running round stays, or gives way to one with a higher number. */
  ghost predicate Moves(p: Protocol, before: State, after: State) {
    && (before.round.Over? ==> after.round.Over?)
    && (before.round.Running? && after.round.Running? && after.round.header != before.round.header ==>
          p.number(after.round.header) > p.number(before.round.header))
  }

  lemma AdvanceMoves(p: Protocol, s: Session, st: State)
    requires st.round.Running? && Whole(st) && Forwards(p) && Latest(p, st)
    ensures var r := Advance(p, s, st);
            && Latest(p, r.state) && Moves(p, st, r.state)
            && (r.Again? ==> r.state.round.Running? && p.number(r.state.round.header) > p.number(st.round.header))
  {
    hide ReceivedAll, HashesMatch, Forward, ReadQueue;
    if Concludes(p, s, st) && OutcomeOf(p, st).Next? {
      var o := OutcomeOf(p, st);
      var entered := Entered(p, s, Finalizing(p, s, st), o.header, o.msgs);
      if p.number(o.header) !in st.rounds {
        ReadQueueKeeps(p, s, entered, p.order(p.number(o.header)));
      }
    }
  }

  lemma {:induction false} FinalizeMoves(p: Protocol, s: Session, st: State)
    requires Ready(p, s, st) && Forwards(p) && Latest(p, st)
    ensures Latest(p, Finalize(p, s, st)) && Moves(p, st, Finalize(p, s, st))
    decreases Unseen(s, st)
  {
    hide Advance;
    AdvanceMoves(p, s, st);
    if Advance(p, s, st).Again? {
      AdvanceEnters(p, s, st);
      FinalizeMoves(p, s, Advance(p, s, st).state);
    }
  }

  /** Accepting a message never goes back: round numbers strictly increase. */
  lemma AcceptMoves(p: Protocol, s: Session, st: State, m: Message)
    requires Whole(st) && Bounded(p, s) && Forwards(p) && Latest(p, st)
    ensures Latest(p, Accept(p, s, st, m)) && Moves(p, st, Accept(p, s, st, m))
  {
    hide Finalize, VerifyMessage, VerifyBroadcast, CanAccept;
    if !Refuses(p, s, st, m) && m.number != 0 && Number(p, st.round) == m.number {
      var stored := Store(st, m);
      assert m.data.Some? by { Accepted(s, Number(p, st.round), m); }
      var step := Verify(p, stored, m);
      if step.error.None? {
        FinalizeMoves(p, s, step.state);
      }
    }
  }

  lemma {:induction false} RunMoves(p: Protocol, s: Session, h: Header, ms: seq<Message>)
    requires Bounded(p, s) && Forwards(p)
    ensures Latest(p, Run(p, s, h, ms))
  {
    hide Accept, Finalize;
    if |ms| == 0 {
      FinalizeMoves(p, s, Initial(p, s, h));
    } else {
      RunMoves(p, s, h, ms[..|ms| - 1]);
      AcceptMoves(p, s, Run(p, s, h, ms[..|ms| - 1]), ms[|ms| - 1]);
    }
  }

  // ---------------------------------------------------------------------- buffer

  function Sent(o: Outcome): (n: nat) {
    if o.Next? || o.Aborted? || o.Finished? then |o.msgs| else 0
  }

  /** The round with number k sends at most budget(k) messages, and is never returned again. */
  ghost predicate Within(p: Protocol, budget: nat -> nat) {
    forall h, b, m :: Sent(p.finalize(h, b, m)) <= budget(p.number(h)) &&
                      (p.finalize(h, b, m).Next? ==> p.number(p.finalize(h, b, m).header) > p.number(h))
  }

  /** The budget of all rounds below n. */
  function Total(budget: nat -> nat, n: nat): (t: nat) {
    if n == 0 then 0 else Total(budget, n - 1) + budget(n - 1)
  }

  lemma {:induction false} TotalGrows(budget: nat -> nat, a: nat, b: nat)
    requires a <= b
    ensures Total(budget, a) <= Total(budget, b)
  {
    if a < b {
      TotalGrows(budget, a, b - 1);
    }
  }

  lemma {:induction false} ForwardLength(s: Session, st: State, msgs: seq<Outgoing>, v: Option<Digest>)
    ensures |Forward(s, st, msgs, v).out| == |st.out| + |msgs|
  {
    if |msgs| != 0 {
      ForwardLength(s, st, msgs[..|msgs| - 1], v);
    }
  }

  /** What has been sent fits the budget of the rounds before the current one. */
  ghost predicate Budgeted(p: Protocol, s: Session, budget: nat -> nat, st: State) {
    if st.round.Running? && !Done(st) then
      && p.number(st.round.header) <= s.final
      && |st.out| <= Total(budget, p.number(st.round.header))
    else |st.out| <= 2 * |s.parties|
  }

  /** Entering a round that was not entered before moves on to a later budget. */
  lemma EnterBudget(p: Protocol, s: Session, budget: nat -> nat, now: State, h: Header, msgs: seq<Outgoing>, k: nat)
    requires Whole(now) && !Done(now) && p.number(h) !in now.rounds && k < p.number(h) <= s.final
    requires |now.out| + |msgs| <= Total(budget, k + 1) && Total(budget, s.final + 1) <= 2 * |s.parties|
    ensures var r := Enter(p, s, now, h, msgs);
            Budgeted(p, s, budget, r.state) && (r.Again? ==> !Done(r.state))
  {
    hide Forward, ReadQueue, Total;
    ForwardLength(s, now, msgs, Get(now.hashes, p.number(h) - 1));
    TotalGrows(budget, k + 1, p.number(h));
    TotalGrows(budget, p.number(h), s.final + 1);
    ReadQueueKeeps(p, s, Entered(p, s, now, h, msgs), p.order(p.number(h)));
  }

  lemma ConcludeBudget(p: Protocol, s: Session, budget: nat -> nat, now: State, o: Outcome, k: nat)
    requires Whole(now) && !Done(now) && k <= s.final
    requires |now.out| + Sent(o) <= Total(budget, k + 1) && Total(budget, s.final + 1) <= 2 * |s.parties|
    requires o.Next? ==> k < p.number(o.header) <= s.final && p.number(o.header) !in now.rounds
    requires !o.Next? && !o.Failed? ==> !SilentOutcome(o)
    ensures var r := Conclude(p, s, now, o);
            Budgeted(p, s, budget, r.state) && (r.Again? ==> !Done(r.state))
  {
    hide Enter, Forward, Total;
    TotalGrows(budget, k + 1, s.final + 1);
    match o
    case Next(h, msgs) => EnterBudget(p, s, budget, now, h, msgs, k);
    case Aborted(_, _, msgs) => ForwardLength(s, now, msgs, None);
    case Finished(_, msgs) => ForwardLength(s, now, msgs, None);
    case _ =>
  }

  lemma AdvanceBudget(p: Protocol, s: Session, budget: nat -> nat, st: State)
    requires st.round.Running? && Whole(st) && Bounded(p, s) && Within(p, budget) && Loud(p) && Latest(p, st)
    requires Total(budget, s.final + 1) <= 2 * |s.parties| && Budgeted(p, s, budget, st) && !Done(st)
    ensures var r := Advance(p, s, st);
            Budgeted(p, s, budget, r.state) && (r.Again? ==> !Done(r.state))
  {
    hide ReceivedAll, HashesMatch, Conclude;
    var k := p.number(st.round.header);
    assert Total(budget, k + 1) == Total(budget, k) + budget(k);
    hide Total;
    TotalGrows(budget, k, s.final + 1);
    if Concludes(p, s, st) {
      var o := OutcomeOf(p, st);
      ConcludeBudget(p, s, budget, Finalizing(p, s, st), o, k);
    }
  }

  lemma {:induction false} FinalizeBudget(p: Protocol, s: Session, budget: nat -> nat, st: State)
    requires Ready(p, s, st) && Within(p, budget) && Loud(p) && Forwards(p) && Latest(p, st)
    requires Total(budget, s.final + 1) <= 2 * |s.parties| && Budgeted(p, s, budget, st) && !Done(st)
    ensures Budgeted(p, s, budget, Finalize(p, s, st))
    decreases Unseen(s, st)
  {
    hide Advance, Total;
    AdvanceBudget(p, s, budget, st);
    AdvanceMoves(p, s, st);
    if Advance(p, s, st).Again? {
      AdvanceEnters(p, s, st);
      FinalizeBudget(p, s, budget, Advance(p, s, st).state);
    }
  }

  lemma AcceptBudget(p: Protocol, s: Session, budget: nat -> nat, st: State, m: Message)
    requires Whole(st) && Bounded(p, s) && Within(p, budget) && Loud(p) && Forwards(p) && Latest(p, st)
    requires Total(budget, s.final + 1) <= 2 * |s.parties| && Budgeted(p, s, budget, st)
    ensures Budgeted(p, s, budget, Accept(p, s, st, m))
  {
    hide Finalize, VerifyMessage, VerifyBroadcast, CanAccept, Total;
    if st.round.Running? && !Done(st) {
      TotalGrows(budget, p.number(st.round.header), s.final + 1);
    }
    if !Refuses(p, s, st, m) && m.number != 0 && Number(p, st.round) == m.number {
      var stored := Store(st, m);
      assert m.data.Some? by { Accepted(s, Number(p, st.round), m); }
      var step := Verify(p, stored, m);
      if step.error.None? {
        FinalizeBudget(p, s, budget, step.state);
      }
    }
  }

  /** No run of a protocol whose rounds stay within the buffer ever fills it. */
  lemma {:induction false} BufferSuffices(p: Protocol, s: Session, budget: nat -> nat, h: Header, ms: seq<Message>)
    requires Bounded(p, s) && Within(p, budget) && Loud(p) && Forwards(p) && p.number(h) <= s.final
    requires Total(budget, s.final + 1) <= 2 * |s.parties|
    ensures Budgeted(p, s, budget, Run(p, s, h, ms)) && |Run(p, s, h, ms).out| <= 2 * |s.parties|
  {
    hide Accept, Finalize, Total;
    var st := Run(p, s, h, ms);
    if |ms| == 0 {
      FinalizeBudget(p, s, budget, Initial(p, s, h));
    } else {
      var before := ms[..|ms| - 1];
      BufferSuffices(p, s, budget, h, before);
      RunMoves(p, s, h, before);
      AcceptBudget(p, s, budget, Run(p, s, h, before), ms[|ms| - 1]);
    }
    if st.round.Running? && !Done(st) {
      TotalGrows(budget, p.number(st.round.header), s.final + 1);
    }
  }

  // ------------------------------------------------------------- what is ignored

  /** A message that is not for this party, of another protocol or session, from a stranger, empty or too late a round. */
  ghost predicate Foreign(s: Session, m: Message) {
    || m.from == s.self || (m.to.Some? && m.to.value != s.self) || m.from !in s.parties
    || m.protocol != s.name || m.ssid != s.ssid || m.data.None? || m.number > s.final
  }

  /** Such a message, one for a round that is past, a second one for the same slot, and any after the end, do nothing. */
  lemma Ignored(p: Protocol, s: Session, st: State, m: Message)
    requires Whole(st) && Bounded(p, s)
    requires || Foreign(s, m) || Done(st) || 0 < m.number < Number(p, st.round)
             || (m.number > 0 && var q := if m.broadcast then st.broadcast else st.messages;
                                 m.number in q && m.from in q[m.number])
    ensures Accept(p, s, st, m) == st
  {
    hide Finalize, Verify, Store;
  }

  /** The messages of a sequence that concern this party. */
  ghost function Concerning(s: Session, ms: seq<Message>): seq<Message> {
    if |ms| == 0 then []
    else Concerning(s, ms[..|ms| - 1]) + if Foreign(s, ms[|ms| - 1]) then [] else [ms[|ms| - 1]]
  }

  /** Noise: a run is the same with and without all the messages that do not concern this party. */
  lemma {:induction false} NoiseIgnored(p: Protocol, s: Session, h: Header, ms: seq<Message>)
    requires Bounded(p, s)
    ensures Run(p, s, h, ms) == Run(p, s, h, Concerning(s, ms))
  {
    hide Accept, Foreign, Start;
    if |ms| != 0 {
      var before, m := ms[..|ms| - 1], ms[|ms| - 1];
      NoiseIgnored(p, s, h, before);
      if Foreign(s, m) {
        Ignored(p, s, Run(p, s, h, before), m);
        assert Concerning(s, ms) == Concerning(s, before);
      } else {
        var rest := Concerning(s, before);
        assert (rest + [m])[..|rest|] == rest;
      }
    }
  }
}
