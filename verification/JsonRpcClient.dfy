/**
  The JSON-RPC 2.0 client: callers, a read thread, a timeout thread and stop()
  race over one map of pending promises. Each lock-protected section is one step.
 */
module JsonRpcClient {
  import opened Basics

  const HALF := 0x8000_0000_0000_0000

  /** Request ids are 64-bit signed integers. */
  type Int64 = x: int | -HALF <= x < HALF

  // ------------------------------------------------------------- messages

  /** What the `id` member of a message holds. */
  datatype IdMember = NoId | Integer(n: Int64) | Text | OtherId

  datatype ErrorMember = NoError | Malformed | ErrorObject(code: int, text: string, data: Option<string>)

  datatype Message = Message(id: IdMember, hasMethod: bool, result: Option<string>, error: ErrorMember)

  datatype Outcome =
    | Value(json: string)
    | ServerError(code: int, text: string, data: Option<string>)
    | TimedOut(at: int)
    | Closed

  /** The call a message answers, if it is a well-formed response with an integer id. */
  function Completion(m: Message): Option<(Int64, Outcome)> {
    if m.hasMethod || !m.id.Integer? || (m.result.None? && m.error.NoError?) || m.error.Malformed? then None
    else if m.error.ErrorObject? then Some((m.id.n, ServerError(m.error.code, m.error.text, m.error.data)))
    else Some((m.id.n, Value(m.result.value)))
  }

  /** On its members alone: a response to the call with this id. */
  predicate Responds(m: Message, id: Int64) {
    !m.hasMethod && m.id == Integer(id)
  }

  /** A result and no error. */
  predicate HasValue(m: Message, json: string) {
    m.error.NoError? && m.result == Some(json)
  }

  /** A well-formed error, whether or not there is a result beside it. */
  predicate HasError(m: Message, code: int, text: string, data: Option<string>) {
    m.error == ErrorObject(code, text, data)
  }

  /** What a message completes, by its members; everything else completes nothing. */
  lemma CompletionMeans(m: Message, id: Int64)
    ensures forall j :: Completion(m) == Some((id, Value(j))) <==> Responds(m, id) && HasValue(m, j)
    ensures forall code, text, data ::
              Completion(m) == Some((id, ServerError(code, text, data))) <==>
              Responds(m, id) && HasError(m, code, text, data)
    ensures Completion(m).Some? ==> Completion(m).value.1.Value? || Completion(m).value.1.ServerError?
  {
  }

  // ------------------------------------------------- ids and the pending map

  /** `next_id_++` on a 64-bit signed counter that starts at 1. */
  function IdOf(ticket: nat): Int64 {
    (ticket + 1 + HALF) % WORD - HALF
  }

  /** `time_point::max()`, the deadline of a request that never times out. */
  const NEVER := 0x7fff_ffff_ffff_ffff

  function Deadline(created: int, timeout: int): int {
    if timeout > 0 then created + timeout else NEVER
  }

  /** A pending request: which call it belongs to, and its deadline. */
  datatype Entry = Entry(ticket: nat, deadline: int)

  type Pending = map<Int64, Entry>

  function Expired(pending: Pending, now: int): set<Int64> {
    set id | id in pending && pending[id].deadline <= now
  }

  function Tickets(pending: Pending, ids: set<Int64>): set<nat> {
    set id | id in ids && id in pending :: pending[id].ticket
  }

  // ---------------------------------------------------------- the machine

  datatype Phase = Drawn | Sending | Waiting(since: int) | Done
  datatype Call = Call(timeout: int, created: int, phase: Phase)

  datatype Actor = Reader | Timer | Stopper | Caller
  /** A promise taken out of the map by `by`, about to be settled with `outcome`. */
  datatype Hand = Hand(holder: Actor, outcome: Outcome)

  /** `Leaving` has seen the end of the stream, `Emptied` has also taken what was pending then. */
  datatype Thread = NotStarted | Live | Leaving | Emptied | Finished
  datatype Stop = Idle | Flagged | ReaderJoined | BothJoined | Swept | Returned

  datatype State = State(
    now: int,
    issued: nat,
    calls: map<nat, Call>,
    pending: Pending,
    hands: map<nat, Hand>,
    settled: map<nat, Outcome>,
    rejected: set<nat>,
    received: set<Message>,
    running: bool,
    ended: bool,
    reader: Thread,
    timer: Thread,
    stop: Stop)

  const INIT := State(0, 0, map[], map[], map[], map[], {}, {}, false, false, NotStarted, NotStarted, Idle)

  datatype Step =
    | Tick(to: int)
    | Start
    | Draw(timeout: int)
    | Register(ticket: nat, created: int)
    | SendDone(ticket: nat)
    | SendFailed(ticket: nat)
    | CallerTimesOut(ticket: nat)
    | Receive(message: Message)
    | EndOfStream
    | ReaderSweeps
    | ReaderExits
    | Scan(at: int)
    | TimerExits
    | StopFlags
    | JoinReader
    | JoinTimer
    | StopSweeps
    | StopReturns
    | Settle(ticket: nat)

  predicate Idles(s: State, who: Actor) {
    forall t | t in s.hands :: s.hands[t].holder != who
  }

  predicate Gone(t: Thread) {
    t == NotStarted || t == Finished
  }

  predicate InPhase(s: State, t: nat, p: Phase) {
    t in s.calls && s.calls[t].phase == p
  }

  predicate Enabled(s: State, step: Step) {
    match step
    case Tick(to) => s.now <= to < NEVER
    case Start => !s.running && s.reader == s.timer == NotStarted && s.stop == Idle
    case Draw(_) => true
    case Register(t, created) => InPhase(s, t, Drawn) && s.calls[t].created <= created <= s.now
    case SendDone(t) => InPhase(s, t, Sending)
    case SendFailed(t) => InPhase(s, t, Sending)
    case CallerTimesOut(t) =>
      && t in s.calls && s.calls[t].phase.Waiting? && s.calls[t].timeout > 0
      && s.now >= s.calls[t].phase.since + s.calls[t].timeout
    case Receive(_) => s.reader == Live && Idles(s, Reader)
    case EndOfStream => s.reader == Live && Idles(s, Reader)
    case ReaderSweeps => s.reader == Leaving
    case ReaderExits => (s.reader == Emptied || (s.reader == Live && !s.running)) && Idles(s, Reader)
    case Scan(at) => s.timer == Live && Idles(s, Timer) && at <= s.now
    case TimerExits => s.timer == Live && !s.running && Idles(s, Timer)
    case StopFlags => s.stop == Idle || s.stop == Returned
    case JoinReader => s.stop == Flagged && Gone(s.reader)
    case JoinTimer => s.stop == ReaderJoined && Gone(s.timer)
    case StopSweeps => s.stop == BothJoined
    case StopReturns => s.stop == Swept && Idles(s, Stopper)
    case Settle(t) => t in s.hands
  }

  function SetPhase(s: State, t: nat, p: Phase): State
    requires t in s.calls
  {
    s.(calls := s.calls[t := s.calls[t].(phase := p)])
  }

  /** The entries `ids` leave the map for the hand of `who`. */
  function Take(s: State, ids: set<Int64>, who: Actor, outcome: Outcome): (r: State)
    ensures r == s.(pending := r.pending, hands := r.hands)
  {
    s.(pending := s.pending - ids,
       hands := s.hands + map t | t in Tickets(s.pending, ids) :: Hand(who, outcome))
  }

  function Apply(s: State, step: Step): State
    requires Enabled(s, step)
  {
    match step
    case Tick(to) => s.(now := to)
    case Start => s.(running := true, reader := Live, timer := Live)
    case Draw(timeout) => s.(issued := s.issued + 1, calls := s.calls[s.issued := Call(timeout, s.now, Drawn)])
    case Register(t, created) =>
      var call := s.calls[t].(created := created, phase := Sending);
      s.(calls := s.calls[t := call], pending := s.pending[IdOf(t) := Entry(t, Deadline(created, call.timeout))])
    case SendDone(t) => SetPhase(s, t, Waiting(s.now))
    case SendFailed(t) =>
      SetPhase(s, t, Done).(pending := s.pending - {IdOf(t)}, rejected := s.rejected + Tickets(s.pending, {IdOf(t)}))
    case CallerTimesOut(t) => Take(SetPhase(s, t, Done), {IdOf(t)}, Caller, TimedOut(s.now))
    case Receive(m) =>
      var c := Completion(m);
      var s := s.(received := s.received + {m});
      if c.None? then s else Take(s, {c.value.0}, Reader, c.value.1)
    case EndOfStream => s.(running := false, ended := true, reader := Leaving)
    case ReaderSweeps => Take(s, s.pending.Keys, Reader, Closed).(reader := Emptied)
    case ReaderExits => s.(reader := Finished)
    case Scan(at) => Take(s, Expired(s.pending, at), Timer, TimedOut(at))
    case TimerExits => s.(timer := Finished)
    case StopFlags => s.(running := false, ended := true, stop := Flagged)
    case JoinReader => s.(stop := ReaderJoined)
    case JoinTimer => s.(stop := BothJoined)
    case StopSweeps => Take(s, s.pending.Keys, Stopper, Closed).(stop := Swept)
    case StopReturns => s.(stop := Returned)
    case Settle(t) => s.(hands := s.hands - {t}, settled := s.settled[t := s.hands[t].outcome])
  }

  // ---------------------------------------------------------- the invariant

  function Count(b: bool): nat {
    if b then 1 else 0
  }

  predicate IsPending(s: State, t: nat) {
    IdOf(t) in s.pending && s.pending[IdOf(t)].ticket == t
  }

  /** In how many of the five places the promise of call `t` is. */
  function Places(s: State, t: nat): nat
    requires t in s.calls
  {
    Count(s.calls[t].phase == Drawn) + Count(IsPending(s, t)) + Count(t in s.hands) + Count(t in s.settled) +
        Count(t in s.rejected)
  }

  ghost predicate CallsInv(s: State) {
    && (forall t: nat :: t in s.calls <==> t < s.issued)
    && (forall t | t in s.calls :: s.calls[t].created <= s.now)
    && (forall t | t in s.calls && s.calls[t].phase.Waiting? :: s.calls[t].created <= s.calls[t].phase.since)
    && s.now < NEVER
  }

  ghost predicate PendingInv(s: State) {
    forall id | id in s.pending ::
      var e := s.pending[id];
      && id == IdOf(e.ticket) && e.ticket in s.calls && s.calls[e.ticket].phase != Drawn
      && e.deadline == Deadline(s.calls[e.ticket].created, s.calls[e.ticket].timeout)
  }

  /** Conservation: every promise is in exactly one place. */
  ghost predicate Conserved(s: State) {
    && s.hands.Keys <= s.calls.Keys && s.settled.Keys <= s.calls.Keys && s.rejected <= s.calls.Keys
    && forall t | t in s.calls :: Places(s, t) == 1
  }

  predicate Justified(s: State, t: nat, o: Outcome)
    requires t in s.calls
  {
    match o
    case Value(j) => exists m :: m in s.received && Responds(m, IdOf(t)) && HasValue(m, j)
    case ServerError(code, text, data) =>
      exists m :: m in s.received && Responds(m, IdOf(t)) && HasError(m, code, text, data)
    case TimedOut(at) => s.calls[t].timeout > 0 && s.calls[t].created + s.calls[t].timeout <= at <= s.now
    case Closed => s.ended
  }

  /** Every outcome, settled or about to be, has its cause. */
  ghost predicate Caused(s: State)
    requires s.hands.Keys <= s.calls.Keys && s.settled.Keys <= s.calls.Keys
  {
    && (forall t | t in s.hands :: Justified(s, t, s.hands[t].outcome))
    && (forall t | t in s.settled :: Justified(s, t, s.settled[t]))
  }

  ghost predicate ThreadsInv(s: State) {
    && (Gone(s.reader) ==> Idles(s, Reader))
    && (Gone(s.timer) ==> Idles(s, Timer))
    && (s.stop != Swept ==> Idles(s, Stopper))
    && (s.stop != Idle && s.stop != Flagged ==> Gone(s.reader))
    && (s.stop != Idle && s.stop != Flagged && s.stop != ReaderJoined ==> Gone(s.timer))
    && (s.stop != Idle || s.reader == Leaving || s.reader == Emptied ==> s.ended)
  }

  ghost predicate Inv(s: State) {
    DataInv(s) && ThreadsInv(s)
  }

  // ------------------------------------------------------------- the proofs

  /** Two calls get the same id exactly when 2^64 calls, or a multiple, lie between them. */
  lemma IdsRepeat(a: nat, b: nat)
    ensures IdOf(a) == IdOf(b) <==> (a - b) % WORD == 0
  {
  }

  /** Ids count up from 1, and from the largest to the smallest number. */
  lemma IdsCountUp(t: nat)
    ensures IdOf(t) < HALF - 1 ==> IdOf(t + 1) == IdOf(t) + 1
    ensures IdOf(t) == HALF - 1 ==> IdOf(t + 1) == -HALF
    ensures IdOf(0) == 1
  {
  }

  /** The first two calls to share an id. */
  lemma FirstRepeat()
    ensures IdOf(0) == IdOf(WORD) == 1
  {
  }

  lemma IdsDiffer(a: nat, b: nat)
    requires a < WORD && b < WORD && IdOf(a) == IdOf(b)
    ensures a == b
  {
    IdsRepeat(a, b);
  }

  lemma PendingTickets(s: State, ids: set<Int64>, t: nat)
    requires PendingInv(s)
    ensures t in Tickets(s.pending, ids) <==> IsPending(s, t) && IdOf(t) in ids
  {
    if t in Tickets(s.pending, ids) {
      var id :| id in ids && id in s.pending && s.pending[id].ticket == t;
      assert id == IdOf(t);
    }
  }

  /** What the threads do not see: all of the invariant but the thread states. */
  ghost predicate DataInv(s: State) {
    CallsInv(s) && PendingInv(s) && Conserved(s) && Caused(s)
  }

  /** Taking entries out of the map puts exactly their calls into the hand. */
  lemma TakeKeeps(s: State, ids: set<Int64>, who: Actor, outcome: Outcome)
    requires DataInv(s)
    requires forall t | t in s.calls && IsPending(s, t) && IdOf(t) in ids :: Justified(s, t, outcome)
    ensures DataInv(Take(s, ids, who, outcome))
  {
    TakeKeepsPlaces(s, ids, who, outcome);
    TakeKeepsCauses(s, ids, who, outcome);
  }

  lemma TakeKeepsPlaces(s: State, ids: set<Int64>, who: Actor, outcome: Outcome)
    requires DataInv(s)
    ensures var s' := Take(s, ids, who, outcome); CallsInv(s') && PendingInv(s') && Conserved(s')
  {
    var s' := Take(s, ids, who, outcome);
    forall t | t in s.calls
      ensures Places(s', t) == 1
    {
      TakeMovesOne(s, ids, who, outcome, t);
    }
  }

  lemma TakeKeepsCauses(s: State, ids: set<Int64>, who: Actor, outcome: Outcome)
    requires DataInv(s) && Conserved(Take(s, ids, who, outcome))
    requires forall t | t in s.calls && IsPending(s, t) && IdOf(t) in ids :: Justified(s, t, outcome)
    ensures Caused(Take(s, ids, who, outcome))
  {
    var s' := Take(s, ids, who, outcome);
    forall t | t in s.calls
      ensures t in s'.hands ==> Justified(s', t, s'.hands[t].outcome)
    {
      TakeMovesOne(s, ids, who, outcome, t);
    }
  }

  lemma TakeMovesOne(s: State, ids: set<Int64>, who: Actor, outcome: Outcome, t: nat)
    requires DataInv(s) && t in s.calls
    ensures var s' := Take(s, ids, who, outcome);
            && Places(s', t) == 1
            && (IsPending(s, t) && IdOf(t) in ids ==> s'.hands[t] == Hand(who, outcome))
            && (!(IsPending(s, t) && IdOf(t) in ids) ==>
                (t in s'.hands <==> t in s.hands) && (t in s.hands ==> s'.hands[t] == s.hands[t]))
            && (IsPending(s, t) ==> t !in s.hands && t !in s.settled && t !in s.rejected)
  {
    PendingTickets(s, ids, t);
    assert Places(s, t) == 1;
  }

  lemma TakeIdles(s: State, ids: set<Int64>, who: Actor, outcome: Outcome)
    ensures var s' := Take(s, ids, who, outcome);
            && (forall other: Actor | other != who && Idles(s, other) :: Idles(s', other))
            && s'.reader == s.reader && s'.timer == s.timer && s'.stop == s.stop && s'.ended == s.ended
  {
  }

  /** Neither the calls nor the map change. */
  lemma CallsStay(s: State, s': State)
    requires CallsInv(s) && PendingInv(s)
    requires s'.calls == s.calls && s'.issued == s.issued && s'.pending == s.pending
    requires s.now <= s'.now && (s.now < NEVER ==> s'.now < NEVER)
    ensures CallsInv(s') && PendingInv(s')
  {
  }

  lemma PlacesStay(s: State, s': State)
    requires Conserved(s)
    requires s'.calls.Keys == s.calls.Keys && s'.pending == s.pending && s'.hands == s.hands
    requires s'.settled == s.settled && s'.rejected == s.rejected
    requires forall t | t in s.calls :: s'.calls[t].phase == Drawn <==> s.calls[t].phase == Drawn
    ensures Conserved(s')
  {
    forall t | t in s.calls
      ensures Places(s', t) == 1
    {
      assert Places(s, t) == 1;
    }
  }

  /** Only the calls that have an outcome matter to its cause. */
  lemma CausesStay(s: State, s': State)
    requires s.hands.Keys <= s.calls.Keys && s.settled.Keys <= s.calls.Keys && Caused(s)
    requires s'.hands == s.hands && s'.settled == s.settled
    requires s'.hands.Keys <= s'.calls.Keys && s'.settled.Keys <= s'.calls.Keys
    requires forall t | t in s.hands || t in s.settled ::
               s'.calls[t].created == s.calls[t].created && s'.calls[t].timeout == s.calls[t].timeout
    requires s.received <= s'.received && s.now <= s'.now && (s.ended ==> s'.ended)
    ensures Caused(s')
  {
    forall t | t in s.hands
      ensures Justified(s', t, s.hands[t].outcome)
    {
      assert Justified(s, t, s.hands[t].outcome);
    }
    forall t | t in s.settled
      ensures Justified(s', t, s.settled[t])
    {
      assert Justified(s, t, s.settled[t]);
    }
  }

  /** A later clock, a new thread state: nothing moves. */
  lemma QuietKeeps(s: State, s': State)
    requires DataInv(s)
    requires s'.calls == s.calls && s'.issued == s.issued && s'.pending == s.pending && s'.hands == s.hands
    requires s'.settled == s.settled && s'.rejected == s.rejected
    requires s.received <= s'.received && s.now <= s'.now && (s.now < NEVER ==> s'.now < NEVER)
    requires s.ended ==> s'.ended
    ensures DataInv(s')
  {
    hide CallsInv, PendingInv, Caused, Places;
    CallsStay(s, s');
    PlacesStay(s, s');
    CausesStay(s, s');
  }

  lemma PhaseCalls(s: State, t: nat, p: Phase)
    requires CallsInv(s) && PendingInv(s) && t in s.calls && p != Drawn
    requires p.Waiting? ==> s.calls[t].created <= p.since
    ensures CallsInv(SetPhase(s, t, p)) && PendingInv(SetPhase(s, t, p))
  {
  }

  lemma PhaseKeeps(s: State, t: nat, p: Phase)
    requires DataInv(s) && t in s.calls && s.calls[t].phase != Drawn && p != Drawn
    requires p.Waiting? ==> s.calls[t].created <= p.since
    ensures DataInv(SetPhase(s, t, p))
  {
    hide CallsInv, PendingInv, Caused, Places;
    PhaseCalls(s, t, p);
    PlacesStay(s, SetPhase(s, t, p));
    CausesStay(s, SetPhase(s, t, p));
  }

  lemma DrawnIsNew(s: State, timeout: int)
    requires CallsInv(s) && PendingInv(s) && Conserved(s)
    ensures var s' := Apply(s, Draw(timeout)); CallsInv(s') && PendingInv(s') && Conserved(s') && s.issued !in s.calls
  {
    var s' := Apply(s, Draw(timeout));
    forall t | t in s'.calls
      ensures Places(s', t) == 1
    {
      if t < s.issued {
        assert Places(s, t) == 1;
      } else {
        assert t !in s.calls;
      }
    }
  }

  lemma DrawKeeps(s: State, timeout: int)
    requires DataInv(s)
    ensures DataInv(Apply(s, Draw(timeout)))
  {
    hide CallsInv, PendingInv, Caused, Places;
    DrawnIsNew(s, timeout);
    CausesStay(s, Apply(s, Draw(timeout)));
  }

  /** The call being registered has its promise nowhere yet, and no entry under its id can be another's. */
  lemma RegisterPlaces(s: State, t: nat, created: int, k: nat)
    requires Conserved(s) && CallsInv(s) && s.issued <= WORD && Enabled(s, Register(t, created)) && k in s.calls
    ensures Places(Apply(s, Register(t, created)), k) == 1
    ensures k == t ==> k !in s.hands && k !in s.settled
  {
    assert Places(s, t) == 1 && Places(s, k) == 1;
    if IdOf(k) == IdOf(t) {
      IdsDiffer(k, t);
    }
  }

  lemma RegisterCalls(s: State, t: nat, created: int)
    requires CallsInv(s) && PendingInv(s) && Conserved(s) && s.issued <= WORD && Enabled(s, Register(t, created))
    ensures CallsInv(Apply(s, Register(t, created))) && PendingInv(Apply(s, Register(t, created)))
  {
    var s' := Apply(s, Register(t, created));
    forall id | id in s.pending && id != IdOf(t)
      ensures s.pending[id].ticket != t
    {
    }
  }

  lemma RegisterKeeps(s: State, t: nat, created: int)
    requires DataInv(s) && Enabled(s, Register(t, created)) && s.issued <= WORD
    ensures DataInv(Apply(s, Register(t, created)))
  {
    hide CallsInv, PendingInv, Caused, Places;
    var s' := Apply(s, Register(t, created));
    RegisterCalls(s, t, created);
    forall k | k in s.calls
      ensures Places(s', k) == 1 && (k == t ==> k !in s.hands && k !in s.settled)
    {
      RegisterPlaces(s, t, created, k);
    }
    CausesStay(s, s');
  }

  /** A failed send takes the promise back, unless somebody else already has it. */
  function Reject(s: State, t: nat): State {
    s.(pending := s.pending - {IdOf(t)}, rejected := s.rejected + Tickets(s.pending, {IdOf(t)}))
  }

  lemma RejectPlaces(s: State, t: nat, k: nat)
    requires PendingInv(s) && Conserved(s) && k in s.calls
    ensures Places(Reject(s, t), k) == 1
  {
    PendingTickets(s, {IdOf(t)}, k);
    assert Places(s, k) == 1;
  }

  lemma RejectCalls(s: State, t: nat)
    requires CallsInv(s) && PendingInv(s)
    ensures CallsInv(Reject(s, t)) && PendingInv(Reject(s, t))
    ensures Tickets(s.pending, {IdOf(t)}) <= s.calls.Keys
  {
  }

  lemma RejectKeeps(s: State, t: nat)
    requires DataInv(s)
    ensures DataInv(Reject(s, t))
  {
    hide CallsInv, PendingInv, Caused, Places, Tickets;
    var s' := Reject(s, t);
    RejectCalls(s, t);
    forall k | k in s.calls
      ensures Places(s', k) == 1
    {
      RejectPlaces(s, t, k);
    }
    CausesStay(s, s');
  }

  lemma SettlePlaces(s: State, t: nat)
    requires Conserved(s) && t in s.hands
    ensures Conserved(Apply(s, Settle(t)))
  {
    var s' := Apply(s, Settle(t));
    forall k | k in s.calls
      ensures Places(s', k) == 1
    {
      assert Places(s, k) == 1;
    }
  }

  lemma SettleCauses(s: State, t: nat)
    requires s.hands.Keys <= s.calls.Keys && s.settled.Keys <= s.calls.Keys && Caused(s) && t in s.hands
    ensures Caused(Apply(s, Settle(t)))
  {
    var s' := Apply(s, Settle(t));
    forall k | k in s'.settled
      ensures Justified(s', k, s'.settled[k])
    {
      assert if k == t then Justified(s, k, s.hands[k].outcome) else Justified(s, k, s.settled[k]);
    }
    forall k | k in s'.hands
      ensures Justified(s', k, s'.hands[k].outcome)
    {
      assert Justified(s, k, s.hands[k].outcome);
    }
  }

  lemma SettleKeeps(s: State, t: nat)
    requires DataInv(s) && t in s.hands
    ensures DataInv(Apply(s, Settle(t)))
  {
    hide CallsInv, PendingInv, Caused, Places;
    CallsStay(s, Apply(s, Settle(t)));
    SettlePlaces(s, t);
    SettleCauses(s, t);
  }

  /** A sweep by `who` ends the claims of its entries and changes a thread state. */
  lemma SweepKeeps(s: State, who: Actor, s': State)
    requires DataInv(s) && s.ended && s' == Take(s, s.pending.Keys, who, Closed).(reader := s'.reader, stop := s'.stop)
    ensures DataInv(s')
  {
    hide DataInv;
    TakeKeeps(s, s.pending.Keys, who, Closed);
    QuietKeeps(Take(s, s.pending.Keys, who, Closed), s');
  }

  lemma ReceiveKeeps(s: State, m: Message)
    requires DataInv(s) && Enabled(s, Receive(m))
    ensures DataInv(Apply(s, Receive(m)))
  {
    hide DataInv, Take;
    var c := Completion(m);
    var s1 := s.(received := s.received + {m});
    QuietKeeps(s, s1);
    if c.Some? {
      CompletionMeans(m, c.value.0);
      assert m in s1.received;
      forall t | t in s1.calls && IsPending(s1, t) && IdOf(t) in {c.value.0}
        ensures Justified(s1, t, c.value.1)
      {
        assert Responds(m, IdOf(t));
      }
      TakeKeeps(s1, {c.value.0}, Reader, c.value.1);
    }
  }

  /** The clock is read before the lock is taken, so a pass may work with an earlier time. */
  lemma ScanKeeps(s: State, at: int)
    requires DataInv(s) && at <= s.now
    ensures DataInv(Take(s, Expired(s.pending, at), Timer, TimedOut(at)))
  {
    TakeKeeps(s, Expired(s.pending, at), Timer, TimedOut(at));
  }

  lemma StepKeepsData(s: State, step: Step)
    requires Inv(s) && Enabled(s, step) && s.issued <= WORD
    ensures DataInv(Apply(s, step))
  {
    hide DataInv, ThreadsInv;
    match step
    case Draw(timeout) => DrawKeeps(s, timeout);
    case Register(t, created) => RegisterKeeps(s, t, created);
    case SendDone(t) =>
      CreatedEarlier(s, t);
      PhaseKeeps(s, t, Waiting(s.now));
    case SendFailed(t) =>
      PhaseKeeps(s, t, Done);
      RejectKeeps(SetPhase(s, t, Done), t);
    case CallerTimesOut(t) =>
      PhaseKeeps(s, t, Done);
      TakeCallersOwn(s, t);
    case Receive(m) => ReceiveKeeps(s, m);
    case ReaderSweeps =>
      HasEnded(s);
      SweepKeeps(s, Reader, Apply(s, step));
    case Scan(at) => ScanKeeps(s, at);
    case StopSweeps =>
      HasEnded(s);
      SweepKeeps(s, Stopper, Apply(s, step));
    case Settle(t) => SettleKeeps(s, t);
    case _ =>
      CreatedEarlier(s, 0);
      QuietKeeps(s, Apply(s, step));
  }

  lemma CreatedEarlier(s: State, t: nat)
    requires Inv(s)
    ensures s.now < NEVER && (t in s.calls ==> s.calls[t].created <= s.now)
  {
  }

  lemma HasEnded(s: State)
    requires Inv(s)
    ensures s.stop != Idle || s.reader == Leaving || s.reader == Emptied ==> s.ended
  {
  }

  lemma TakeCallersOwn(s: State, t: nat)
    requires Inv(s) && Enabled(s, CallerTimesOut(t)) && s.issued <= WORD && DataInv(SetPhase(s, t, Done))
    ensures DataInv(Apply(s, CallerTimesOut(t)))
  {
    var s1 := SetPhase(s, t, Done);
    forall k | k in s1.calls && IsPending(s1, k) && IdOf(k) in {IdOf(t)}
      ensures Justified(s1, k, TimedOut(s1.now))
    {
      IdsDiffer(k, t);
    }
    TakeKeeps(s1, {IdOf(t)}, Caller, TimedOut(s1.now));
  }

  /** The same, seen from the threads: who holds nothing, and who has ended. */
  lemma StepKeepsThreads(s: State, step: Step)
    requires ThreadsInv(s) && Enabled(s, step)
    ensures ThreadsInv(Apply(s, step))
  {
    hide Take, Idles, Expired;
    match step
    case CallerTimesOut(t) =>
      HandsDecide(s, s, SetPhase(s, t, Done));
      TakeIdles(SetPhase(s, t, Done), {IdOf(t)}, Caller, TimedOut(s.now));
    case Receive(m) => ReceiveThreads(s, m);
    case ReaderSweeps => EndSweepThreads(s);
    case Scan(at) => TakeIdles(s, Expired(s.pending, at), Timer, TimedOut(at));
    case StopSweeps => SweepThreads(s);
    case Settle(t) => SettleThreads(s, t);
    case _ => HandsDecide(s, s, Apply(s, step));
  }

  lemma ReceiveThreads(s: State, m: Message)
    requires ThreadsInv(s) && Enabled(s, Receive(m))
    ensures ThreadsInv(Apply(s, Receive(m)))
  {
    hide Take;
    var c := Completion(m);
    var s1 := s.(received := s.received + {m});
    HandsDecide(s, s, s1);
    if c.Some? {
      TakeIdles(s1, {c.value.0}, Reader, c.value.1);
    }
  }

  lemma SweepThreads(s: State)
    requires ThreadsInv(s) && Enabled(s, StopSweeps)
    ensures ThreadsInv(Apply(s, StopSweeps))
  {
    var s1 := Take(s, s.pending.Keys, Stopper, Closed);
    TakeIdles(s, s.pending.Keys, Stopper, Closed);
    HandsDecide(s, s1, s1.(stop := Swept));
  }

  lemma EndSweepThreads(s: State)
    requires ThreadsInv(s) && Enabled(s, ReaderSweeps)
    ensures ThreadsInv(Apply(s, ReaderSweeps))
  {
    var s1 := Take(s, s.pending.Keys, Reader, Closed);
    TakeIdles(s, s.pending.Keys, Reader, Closed);
    HandsDecide(s, s1, s1.(reader := Emptied));
  }

  lemma SettleThreads(s: State, t: nat)
    requires ThreadsInv(s) && Enabled(s, Settle(t))
    ensures ThreadsInv(Apply(s, Settle(t)))
  {
    var s' := Apply(s, Settle(t));
    assert forall who: Actor | Idles(s, who) :: Idles(s', who);
  }

  lemma HandsDecide(s: State, s1: State, s2: State)
    requires s1.hands == s2.hands
    ensures forall who: Actor :: Idles(s1, who) <==> Idles(s2, who)
  {
  }

  /** Every atomic step keeps the invariant, as long as ids have not started to repeat. */
  lemma StepKeepsInv(s: State, step: Step)
    requires Inv(s) && Enabled(s, step) && s.issued <= WORD
    ensures Inv(Apply(s, step))
  {
    StepKeepsData(s, step);
    StepKeepsThreads(s, step);
  }

  // --------------------------------------------------------- whole runs

  function Next(s: State, step: Step): Option<State> {
    if Enabled(s, step) then Some(Apply(s, step)) else None
  }

  /** How often a run settles the promise of call `t`. */
  function Settlements(steps: seq<Step>, t: nat): nat {
    if |steps| == 0 then 0 else Count(steps[0] == Settle(t)) + Settlements(steps[1..], t)
  }

  lemma StepOnlyIssues(s: State, step: Step)
    requires Enabled(s, step)
    ensures s.issued <= Apply(s, step).issued
  {
    hide Take, Expired, Idles, Tickets, Completion;
  }

  lemma {:induction false} RunOnlyIssues(s: State, steps: seq<Step>, end: State)
    requires Run(Next, s, steps, end)
    ensures s.issued <= end.issued
    decreases |steps|
  {
    hide Apply, Enabled;
    if |steps| > 0 {
      StepOnlyIssues(s, steps[0]);
      RunOnlyIssues(Apply(s, steps[0]), steps[1..], end);
    }
  }

  lemma {:induction false} RunKeepsInv(s: State, steps: seq<Step>, end: State)
    requires Inv(s) && Run(Next, s, steps, end) && end.issued <= WORD
    ensures Inv(end)
    decreases |steps|
  {
    hide Apply, Enabled, Inv;
    if |steps| > 0 {
      RunOnlyIssues(s, steps, end);
      StepKeepsInv(s, steps[0]);
      RunKeepsInv(Apply(s, steps[0]), steps[1..], end);
    }
  }

  /** A promise in a hand has not been settled. */
  lemma HeldIsUnsettled(s: State, t: nat)
    requires Inv(s) && t in s.hands
    ensures t !in s.settled
  {
    hide CallsInv, PendingInv, Caused, ThreadsInv;
    assert Places(s, t) == 1;
  }

  lemma StepSettles(s: State, step: Step, t: nat)
    requires Inv(s) && Enabled(s, step)
    ensures Count(step == Settle(t)) + Count(t in s.settled) == Count(t in Apply(s, step).settled)
    ensures t in s.settled ==> Apply(s, step).settled[t] == s.settled[t]
  {
    hide DataInv, ThreadsInv;
    if step.Settle? {
      HeldIsUnsettled(s, step.ticket);
    }
  }

  lemma {:induction false} RunSettles(s: State, steps: seq<Step>, end: State, t: nat)
    requires Inv(s) && Run(Next, s, steps, end) && end.issued <= WORD
    ensures Settlements(steps, t) + Count(t in s.settled) == Count(t in end.settled)
    ensures t in s.settled ==> end.settled[t] == s.settled[t]
    decreases |steps|
  {
    hide Apply, Enabled, Inv;
    if |steps| > 0 {
      var next := Apply(s, steps[0]);
      RunOnlyIssues(s, steps, end);
      StepKeepsInv(s, steps[0]);
      StepSettles(s, steps[0], t);
      RunSettles(next, steps[1..], end, t);
    }
  }

  /** In every interleaving each promise is settled at most once, and stays as it was settled. */
  lemma SettledAtMostOnce(steps: seq<Step>, end: State, t: nat)
    requires Run(Next, INIT, steps, end) && end.issued <= WORD
    ensures Settlements(steps, t) <= 1
    ensures Settlements(steps, t) == 1 <==> t in end.settled
  {
    RunSettles(INIT, steps, end, t);
  }

  lemma ReceiveStep(s: State, step: Step, m: Message)
    requires Enabled(s, step)
    ensures m in Apply(s, step).received <==> m in s.received || step == Receive(m)
  {
    hide Take, Expired, Idles, Tickets, Completion;
  }

  lemma {:induction false} ReceivedIsRead(s: State, steps: seq<Step>, end: State, m: Message)
    requires Run(Next, s, steps, end)
    ensures m in end.received <==> m in s.received || Receive(m) in steps
    decreases |steps|
  {
    hide Apply, Enabled;
    if |steps| > 0 {
      ReceiveStep(s, steps[0], m);
      ReceivedIsRead(Apply(s, steps[0]), steps[1..], end, m);
      assert Receive(m) in steps <==> steps[0] == Receive(m) || Receive(m) in steps[1..];
    }
  }

  lemma RunningStep(s: State, step: Step, next: State)
    requires ThreadsInv(s) && Next(s, step) == Some(next)
    ensures next.running <==> step == Start || (s.running && step != EndOfStream && step != StopFlags)
    ensures step == Start ==> s.reader == NotStarted && s.stop == Idle
    ensures step == EndOfStream ==> s.reader == Live
    ensures next.reader == NotStarted ==> s.reader == NotStarted && step != Start
    ensures next.stop == Idle ==> s.stop == Idle && step != StopFlags
  {
    hide Take, Expired, Idles, Tickets, Completion;
  }

  /** From the steps alone: the client runs from its start until it is stopped or the stream ends. */
  lemma {:induction false} RunsUntilStopped(steps: seq<Step>, end: State)
    requires Run(Next, INIT, steps, end) && end.issued <= WORD
    ensures end.running <==> Start in steps && StopFlags !in steps && EndOfStream !in steps
    ensures end.reader == NotStarted ==> Start !in steps && EndOfStream !in steps
    ensures end.stop == Idle ==> StopFlags !in steps
    decreases |steps|
  {
    hide Run, Next, Inv;
    if |steps| == 0 {
      RunNothingEnds(Next, INIT, steps, end);
    } else {
      var n := |steps| - 1;
      var mid := RunLast(Next, INIT, steps, end);
      OnlyIssues(mid, steps[n], end);
      RunsUntilStopped(steps[..n], mid);
      InitInv();
      RunKeepsInv(INIT, steps[..n], mid);
      ThreadsOf(mid);
      RunningStep(mid, steps[n], end);
      assert steps == steps[..n] + [steps[n]];
    }
  }

  lemma ThreadsOf(s: State)
    requires Inv(s)
    ensures ThreadsInv(s)
  {
  }

  /** A value or server error is that of a response read with the id of the call it settles, and of no other. */
  lemma AnswersMatch(steps: seq<Step>, end: State, t: nat) returns (m: Message)
    requires Run(Next, INIT, steps, end) && end.issued <= WORD && t in end.settled
    requires end.settled[t].Value? || end.settled[t].ServerError?
    ensures Receive(m) in steps && !m.hasMethod && m.id == Integer(IdOf(t))
    ensures end.settled[t].Value? ==> m.error.NoError? && m.result == Some(end.settled[t].json)
    ensures end.settled[t].ServerError? ==>
              m.error == ErrorObject(end.settled[t].code, end.settled[t].text, end.settled[t].data)
    ensures forall other | other in end.calls && IdOf(other) == IdOf(t) :: other == t
  {
    RunKeepsInv(INIT, steps, end);
    assert Justified(end, t, end.settled[t]);
    match end.settled[t] {
      case Value(j) => m :| m in end.received && Responds(m, IdOf(t)) && HasValue(m, j);
      case ServerError(code, text, data) =>
        m :| m in end.received && Responds(m, IdOf(t)) && HasError(m, code, text, data);
    }
    ReceivedIsRead(INIT, steps, end, m);
    forall other | other in end.calls && IdOf(other) == IdOf(t)
      ensures other == t
    {
      IdsDiffer(other, t);
    }
  }

  function Draws(steps: seq<Step>): nat {
    if |steps| == 0 then 0 else Draws(steps[..|steps| - 1]) + Count(steps[|steps| - 1].Draw?)
  }

  /** Call `t` is the one drawn with this timeout. */
  ghost predicate DrawnWith(steps: seq<Step>, t: nat, timeout: int) {
    exists i :: 0 <= i < |steps| && steps[i] == Draw(timeout) && Draws(steps[..i]) == t
  }

  lemma DrawnStill(steps: seq<Step>, t: nat, timeout: int)
    requires |steps| > 0 && DrawnWith(steps[..|steps| - 1], t, timeout)
    ensures DrawnWith(steps, t, timeout)
  {
    var front := steps[..|steps| - 1];
    var i :| 0 <= i < |front| && front[i] == Draw(timeout) && Draws(front[..i]) == t;
    assert front[..i] == steps[..i] && steps[i] == Draw(timeout);
  }

  lemma CallStep(s: State, step: Step, next: State, t: nat)
    requires CallsInv(s) && Next(s, step) == Some(next)
    ensures next.issued == s.issued + Count(step.Draw?)
    ensures t in next.calls && t in s.calls ==>
              && next.calls[t].timeout == s.calls[t].timeout
              && (next.calls[t].phase != Drawn ==>
                  || (s.calls[t].phase != Drawn && next.calls[t].created == s.calls[t].created)
                  || step == Register(t, next.calls[t].created))
    ensures t in next.calls && t !in s.calls ==>
              t == s.issued && step == Draw(next.calls[t].timeout) && next.calls[t].phase == Drawn
  {
    hide Take, Expired, Completion, Tickets, Idles;
  }

  /** From the steps alone: a call has the timeout it was drawn with and the time it was registered with. */
  lemma {:induction false} CallsAreDrawn(steps: seq<Step>, end: State)
    requires Run(Next, INIT, steps, end) && end.issued <= WORD
    ensures end.issued == Draws(steps)
    ensures forall t | t in end.calls :: DrawnWith(steps, t, end.calls[t].timeout)
    ensures forall t | t in end.calls && end.calls[t].phase != Drawn :: Register(t, end.calls[t].created) in steps
    decreases |steps|
  {
    hide Run, Next, Inv, DrawnWith;
    if |steps| == 0 {
      RunNothingEnds(Next, INIT, steps, end);
    } else {
      var n := |steps| - 1;
      var mid := RunLast(Next, INIT, steps, end);
      OnlyIssues(mid, steps[n], end);
      CallsAreDrawn(steps[..n], mid);
      InitInv();
      RunKeepsInv(INIT, steps[..n], mid);
      PartOfInv(mid);
      CallStep(mid, steps[n], end, 0);
      forall t | t in end.calls
        ensures DrawnWith(steps, t, end.calls[t].timeout)
        ensures end.calls[t].phase != Drawn ==> Register(t, end.calls[t].created) in steps
      {
        CallStep(mid, steps[n], end, t);
        if t in mid.calls {
          DrawnStill(steps, t, end.calls[t].timeout);
        } else {
          LastIsDrawn(steps, end.calls[t].timeout);
        }
      }
    }
  }

  lemma LastIsDrawn(steps: seq<Step>, timeout: int)
    requires |steps| > 0 && steps[|steps| - 1] == Draw(timeout)
    ensures DrawnWith(steps, Draws(steps[..|steps| - 1]), timeout)
  {
  }

  lemma OnlyIssues(s: State, step: Step, next: State)
    requires Next(s, step) == Some(next)
    ensures s.issued <= next.issued
  {
    StepOnlyIssues(s, step);
  }

  /** No request fails with a timeout before its deadline, and one without a timeout never does. */
  lemma NeverEarly(steps: seq<Step>, end: State, t: nat) returns (timeout: int, created: int)
    requires Run(Next, INIT, steps, end) && end.issued <= WORD && t in end.settled && end.settled[t].TimedOut?
    ensures DrawnWith(steps, t, timeout) && Register(t, created) in steps
    ensures timeout > 0 && end.settled[t].at >= created + timeout
  {
    RunKeepsInv(INIT, steps, end);
    CallsAreDrawn(steps, end);
    assert Justified(end, t, end.settled[t]) && Places(end, t) == 1;
    timeout, created := end.calls[t].timeout, end.calls[t].created;
  }

  /** A pass takes a pending request exactly when it has a timeout that has passed. */
  lemma DueExactly(steps: seq<Step>, end: State, t: nat, at: int)
    requires Run(Next, INIT, steps, end) && end.issued <= WORD && t in end.calls && IsPending(end, t) && at < NEVER
    ensures IdOf(t) in Expired(end.pending, at) <==>
            end.calls[t].timeout > 0 && end.calls[t].created + end.calls[t].timeout <= at
  {
    RunKeepsInv(INIT, steps, end);
    PartOfInv(end);
  }

  /** Conservation over every run: each issued call is in exactly one place. */
  lemma NothingIsLost(steps: seq<Step>, end: State, t: nat)
    requires Run(Next, INIT, steps, end) && end.issued <= WORD
    ensures t in end.calls <==> t < end.issued
    ensures t < end.issued ==> Places(end, t) == 1
  {
    RunKeepsInv(INIT, steps, end);
  }

  /** Out of the map for good: settled, rejected, or in the hand of one of `holders`. */
  predicate Away(s: State, t: nat, holders: set<Actor>) {
    t in s.settled || t in s.rejected || (t in s.hands && s.hands[t].holder in holders)
  }

  lemma NotPending(s: State, t: nat)
    requires DataInv(s) && t in s.calls && (t in s.settled || t in s.rejected || t in s.hands)
    ensures !IsPending(s, t)
  {
    hide CallsInv, PendingInv, Caused;
    assert Places(s, t) == 1;
  }

  lemma TakeLeavesAway(s: State, ids: set<Int64>, who: Actor, outcome: Outcome, t: nat, holders: set<Actor>)
    requires DataInv(s) && t in s.calls && Away(s, t, holders)
    ensures Away(Take(s, ids, who, outcome), t, holders)
  {
    NotPending(s, t);
    TakeMovesOne(s, ids, who, outcome, t);
  }

  lemma StepKeepsAway(s: State, step: Step, t: nat, holders: set<Actor>)
    requires Inv(s) && Enabled(s, step) && t in s.calls && Away(s, t, holders)
    ensures t in Apply(s, step).calls && Away(Apply(s, step), t, holders)
  {
    hide DataInv, ThreadsInv, Idles, Expired, Tickets, Take, Completion;
    match step
    case CallerTimesOut(c) =>
      var s1 := SetPhase(s, c, Done);
      PhaseKeeps(s, c, Done);
      TakeLeavesAway(s1, {IdOf(c)}, Caller, TimedOut(s.now), t, holders);
    case Receive(m) =>
      var c := Completion(m);
      var s1 := s.(received := s.received + {m});
      QuietKeeps(s, s1);
      if c.Some? {
        TakeLeavesAway(s1, {c.value.0}, Reader, c.value.1, t, holders);
      }
    case ReaderSweeps => TakeLeavesAway(s, s.pending.Keys, Reader, Closed, t, holders);
    case Scan(at) => TakeLeavesAway(s, Expired(s.pending, at), Timer, TimedOut(at), t, holders);
    case StopSweeps => TakeLeavesAway(s, s.pending.Keys, Stopper, Closed, t, holders);
    case _ =>
  }

  lemma {:induction false} RunKeepsAway(s: State, steps: seq<Step>, end: State, t: nat, holders: set<Actor>)
    requires Inv(s) && Run(Next, s, steps, end) && end.issued <= WORD && t in s.calls && Away(s, t, holders)
    ensures Inv(end) && Away(end, t, holders)
    decreases |steps|
  {
    hide Apply, Enabled, Inv, Away;
    if |steps| > 0 {
      RunOnlyIssues(s, steps, end);
      StepKeepsInv(s, steps[0]);
      StepKeepsAway(s, steps[0], t, holders);
      RunKeepsAway(Apply(s, steps[0]), steps[1..], end, t, holders);
    }
  }

  /** What a sweep does not find has been settled or rejected, or was in a hand before. */
  lemma SweepReaches(s: State, who: Actor, t: nat)
    requires DataInv(s) && t in s.calls && s.calls[t].phase != Drawn
    ensures var s1 := Take(s, s.pending.Keys, who, Closed);
            || t in s1.settled || t in s1.rejected
            || (t in s1.hands && (s1.hands[t].holder == who || (t in s.hands && s1.hands[t] == s.hands[t])))
  {
    hide CallsInv, PendingInv, Caused;
    TakeMovesOne(s, s.pending.Keys, who, Closed, t);
    assert Places(s, t) == 1;
  }

  lemma StopSweepReaches(s: State, t: nat)
    requires Inv(s) && s.stop == BothJoined && t in s.calls && s.calls[t].phase != Drawn
    ensures Away(Apply(s, StopSweeps), t, {Stopper, Caller})
  {
    hide DataInv;
    SweepReaches(s, Stopper, t);
    assert t in s.hands ==> s.hands[t].holder == Caller;
  }

  /**
    Every request registered before the final swap of stop() is settled or
    rejected once stop() has returned, unless its own caller is just removing it.
   */
  lemma StopSettlesAll(before: seq<Step>, mid: State, after: seq<Step>, end: State, t: nat)
    requires Run(Next, INIT, before, mid) && mid.stop == BothJoined && t in mid.calls && mid.calls[t].phase != Drawn
    requires Run(Next, Apply(mid, StopSweeps), after, end) && end.stop == Returned && end.issued <= WORD
    ensures Away(end, t, {Caller})
    ensures Idles(end, Reader) && Idles(end, Timer) && Idles(end, Stopper)
  {
    hide Apply, Inv, Away;
    RunOnlyIssues(Apply(mid, StopSweeps), after, end);
    StepOnlyIssues(mid, StopSweeps);
    InitInv();
    RunKeepsInv(INIT, before, mid);
    StepKeepsInv(mid, StopSweeps);
    StopSweepReaches(mid, t);
    SweepsKeepCalls(mid, t);
    RunKeepsAway(Apply(mid, StopSweeps), after, end, t, {Stopper, Caller});
    ReturnedMeansDone(end, t);
  }

  lemma InitInv()
    ensures Inv(INIT)
  {
  }

  lemma SweepsKeepCalls(s: State, t: nat)
    requires t in s.calls
    ensures Enabled(s, StopSweeps) ==> t in Apply(s, StopSweeps).calls
    ensures Enabled(s, ReaderSweeps) ==> t in Apply(s, ReaderSweeps).calls
  {
  }

  lemma ReturnedMeansDone(s: State, t: nat)
    requires Inv(s) && s.stop == Returned && Away(s, t, {Stopper, Caller})
    ensures Away(s, t, {Caller})
    ensures Idles(s, Reader) && Idles(s, Timer) && Idles(s, Stopper)
  {
    hide DataInv;
  }

  lemma EndSweepReaches(s: State, t: nat)
    requires Inv(s) && s.reader == Leaving && t in s.calls && s.calls[t].phase != Drawn
    ensures Away(Apply(s, ReaderSweeps), t, {Reader, Timer, Caller})
  {
    hide DataInv;
    SweepReaches(s, Reader, t);
    assert t in s.hands ==> s.hands[t].holder != Stopper;
  }

  /**
    When the stream has ended and the read thread is gone, every request
    registered before its sweep is settled or rejected, or in the hand of the
    timeout thread or of its own caller.
   */
  lemma EndOfStreamSettlesAll(before: seq<Step>, mid: State, after: seq<Step>, end: State, t: nat)
    requires Run(Next, INIT, before, mid) && mid.reader == Leaving && t in mid.calls && mid.calls[t].phase != Drawn
    requires Run(Next, Apply(mid, ReaderSweeps), after, end) && end.reader == Finished && end.issued <= WORD
    ensures Away(end, t, {Timer, Caller}) && Idles(end, Reader)
  {
    hide Apply, Inv, Away;
    RunOnlyIssues(Apply(mid, ReaderSweeps), after, end);
    StepOnlyIssues(mid, ReaderSweeps);
    InitInv();
    RunKeepsInv(INIT, before, mid);
    StepKeepsInv(mid, ReaderSweeps);
    EndSweepReaches(mid, t);
    SweepsKeepCalls(mid, t);
    RunKeepsAway(Apply(mid, ReaderSweeps), after, end, t, {Reader, Timer, Caller});
    GoneMeansDone(end, t);
  }

  lemma GoneMeansDone(s: State, t: nat)
    requires Inv(s) && s.reader == Finished && Away(s, t, {Reader, Timer, Caller})
    ensures Away(s, t, {Timer, Caller}) && Idles(s, Reader)
  {
    hide DataInv;
  }

  // ------------------------------------------------------------- who does what

  datatype Role = ReadThread | TimeoutThread | StopCall | CallOf(ticket: nat)

  function OwnerOf(holder: Actor, t: nat): Role {
    match holder
    case Reader => ReadThread
    case Timer => TimeoutThread
    case Stopper => StopCall
    case Caller => CallOf(t)
  }

  /** Whose step this is; time, starting and drawing ids are everybody's. */
  function Performer(s: State, step: Step): Option<Role>
    requires Enabled(s, step)
  {
    match step
    case Tick(_) => None
    case Start => None
    case Draw(_) => None
    case Register(t, _) => Some(CallOf(t))
    case SendDone(t) => Some(CallOf(t))
    case SendFailed(t) => Some(CallOf(t))
    case CallerTimesOut(t) => Some(CallOf(t))
    case Receive(_) => Some(ReadThread)
    case EndOfStream => Some(ReadThread)
    case ReaderSweeps => Some(ReadThread)
    case ReaderExits => Some(ReadThread)
    case Scan(_) => Some(TimeoutThread)
    case TimerExits => Some(TimeoutThread)
    case Settle(t) => Some(OwnerOf(s.hands[t].holder, t))
    case _ => Some(StopCall)
  }

  /** A run in which `who` takes no step. */
  ghost predicate Without(s: State, steps: seq<Step>, end: State, who: Role)
    decreases |steps|
  {
    if |steps| == 0 then s == end
    else
      && Enabled(s, steps[0]) && Performer(s, steps[0]) != Some(who)
      && Without(Apply(s, steps[0]), steps[1..], end, who)
  }

  predicate HeldBy(s: State, t: nat, who: Role) {
    t in s.hands && OwnerOf(s.hands[t].holder, t) == who
  }

  /** What the others leave to `who`: the promises in its hand, and its own place. */
  ghost predicate Left(s: State, next: State, who: Role) {
    && (forall t: nat :: HeldBy(next, t, who) <==> HeldBy(s, t, who))
    && (who.ReadThread? && s.reader != NotStarted ==> next.reader == s.reader)
    && (who.TimeoutThread? && s.timer != NotStarted ==> next.timer == s.timer)
    && (who.StopCall? ==> next.stop == s.stop)
    && (who.CallOf? && who.ticket in s.calls ==>
        who.ticket in next.calls && next.calls[who.ticket] == s.calls[who.ticket])
    && s.now <= next.now
  }

  lemma TakeLeaves(s: State, ids: set<Int64>, holder: Actor, outcome: Outcome, who: Role, t: nat)
    requires DataInv(s) && (holder.Caller? ==> forall k | k in Tickets(s.pending, ids) :: CallOf(k) != who)
    requires !holder.Caller? ==> OwnerOf(holder, t) != who
    ensures HeldBy(Take(s, ids, holder, outcome), t, who) <==> HeldBy(s, t, who)
  {
    if t in Tickets(s.pending, ids) {
      PendingTickets(s, ids, t);
      var id :| id in ids && id in s.pending && s.pending[id].ticket == t;
      TakeMovesOne(s, ids, holder, outcome, t);
    }
  }

  /** A caller's own entry is the only one it can take. */
  lemma OwnTicket(s: State, t: nat, k: nat)
    requires Inv(s) && s.issued <= WORD && t in s.calls && k in Tickets(s.pending, {IdOf(t)})
    ensures k == t
  {
    PendingTickets(s, {IdOf(t)}, k);
    IdsDiffer(k, t);
  }

  lemma HandStays(s: State, step: Step, who: Role, t: nat)
    requires Inv(s) && s.issued <= WORD && Enabled(s, step) && Performer(s, step) != Some(who)
    ensures HeldBy(Apply(s, step), t, who) <==> HeldBy(s, t, who)
  {
    hide DataInv, ThreadsInv, Tickets, Expired, Completion, Idles;
    match step
    case CallerTimesOut(c) =>
      forall k | k in Tickets(s.pending, {IdOf(c)})
        ensures k == c
      {
        OwnTicket(s, c, k);
      }
      TakeLeaves(s, {IdOf(c)}, Caller, TimedOut(s.now), who, t);
    case Receive(m) =>
      var s1 := s.(received := s.received + {m});
      QuietKeeps(s, s1);
      if Completion(m).Some? {
        TakeLeaves(s1, {Completion(m).value.0}, Reader, Completion(m).value.1, who, t);
      }
    case ReaderSweeps => TakeLeaves(s, s.pending.Keys, Reader, Closed, who, t);
    case Scan(at) => TakeLeaves(s, Expired(s.pending, at), Timer, TimedOut(at), who, t);
    case StopSweeps => TakeLeaves(s, s.pending.Keys, Stopper, Closed, who, t);
    case _ =>
  }

  lemma StepLeaves(s: State, step: Step, who: Role)
    requires Inv(s) && s.issued <= WORD && Enabled(s, step) && Performer(s, step) != Some(who)
    ensures Left(s, Apply(s, step), who)
  {
    hide Inv, Apply, Enabled, Performer, HeldBy;
    forall t: nat
      ensures HeldBy(Apply(s, step), t, who) <==> HeldBy(s, t, who)
    {
      HandStays(s, step, who, t);
    }
    PartOfInv(s);
    PlaceStays(s, step, who);
  }

  lemma PlaceStays(s: State, step: Step, who: Role)
    requires CallsInv(s) && Enabled(s, step) && Performer(s, step) != Some(who)
    ensures var next := Apply(s, step);
            && (who.ReadThread? && s.reader != NotStarted ==> next.reader == s.reader)
            && (who.TimeoutThread? && s.timer != NotStarted ==> next.timer == s.timer)
            && (who.StopCall? ==> next.stop == s.stop)
            && (who.CallOf? && who.ticket in s.calls ==>
                who.ticket in next.calls && next.calls[who.ticket] == s.calls[who.ticket])
            && s.now <= next.now
  {
    hide Take, Expired, Idles, Tickets, Completion;
  }

  lemma {:induction false} WithoutLeaves(s: State, steps: seq<Step>, end: State, who: Role)
    requires Inv(s) && Without(s, steps, end, who) && end.issued <= WORD
    ensures Run(Next, s, steps, end) && Left(s, end, who)
    decreases |steps|
  {
    hide Apply, Enabled, Inv, Performer;
    WithoutIsRun(s, steps, end, who);
    RunOnlyIssues(s, steps, end);
    if |steps| > 0 {
      StepKeepsInv(s, steps[0]);
      StepLeaves(s, steps[0], who);
      WithoutLeaves(Apply(s, steps[0]), steps[1..], end, who);
    }
  }

  lemma {:induction false} WithoutIsRun(s: State, steps: seq<Step>, end: State, who: Role)
    requires Without(s, steps, end, who)
    ensures Run(Next, s, steps, end)
    decreases |steps|
  {
    hide Apply, Enabled, Performer;
    if |steps| > 0 {
      WithoutIsRun(Apply(s, steps[0]), steps[1..], end, who);
    }
  }

  // ---------------------------------------------------------------- the code

  /** These entries are what `who` has in its hand, no two of them for the same call. */
  ghost predicate HoldsExactly(s: State, who: Role, entries: seq<Entry>) {
    && (forall t: nat :: HeldBy(s, t, who) <==> exists i :: 0 <= i < |entries| && entries[i].ticket == t)
    && (forall i, j | 0 <= i < j < |entries| :: entries[i].ticket != entries[j].ticket)
  }

  /** A run so far, from a good state to a good state. */
  ghost predicate Reached(before: State, steps: seq<Step>, now: State) {
    Inv(before) && Run(Next, before, steps, now) && Inv(now) && now.issued <= WORD
  }

  /** The client's own fields, and in `rest` what only the proofs see of the promises and the other threads. */
  class Client {
    var pending: Pending
    var issued: nat
    var now: int
    ghost var rest: State

    ghost function Model(): State
      reads this
    {
      rest.(pending := pending, issued := issued, now := now)
    }

    constructor ()
      ensures Model() == INIT
    {
      pending, issued, now, rest := map[], 0, 0, INIT;
    }

    /** What all others do between two critical sections; callers know no more than the contract. */
    method Interfere(ghost who: Role) returns (ghost steps: seq<Step>)
      requires Inv(Model()) && issued <= WORD
      modifies this
      ensures Without(old(Model()), steps, Model(), who) && issued <= WORD
    {
      steps := [];
    }

    method Pause(ghost who: Role, ghost before: State, ghost steps: seq<Step>) returns (ghost longer: seq<Step>)
      requires Reached(before, steps, Model())
      modifies this
      ensures Reached(before, longer, Model()) && Left(old(Model()), Model(), who) && issued <= WORD
      ensures steps <= longer
    {
      hide Inv, Run, Without, Left;
      ghost var mid := Model();
      ghost var others := Interfere(who);
      WithoutLeaves(mid, others, Model(), who);
      RunKeepsInv(mid, others, Model());
      RunOn(Next, before, steps, mid, others, Model());
      longer := steps + others;
    }

    /** The step just taken continues the run. */
    ghost method Took(before: State, steps: seq<Step>, mid: State, step: Step) returns (longer: seq<Step>)
      requires Reached(before, steps, mid) && Enabled(mid, step) && Model() == Apply(mid, step) && issued <= WORD
      ensures Reached(before, longer, Model()) && longer == steps + [step]
    {
      hide Inv, Enabled, Apply;
      StepKeepsInv(mid, step);
      longer := RunFurther(Next, before, steps, mid, step, Model());
    }

    method DrawId(timeout: int) returns (t: nat, id: Int64)
      modifies `issued, `rest
      ensures Model() == Apply(old(Model()), Draw(timeout))
      ensures t == old(issued) && id == IdOf(t) && issued == t + 1
    {
      ghost var next := Apply(Model(), Draw(timeout));
      t := issued;
      id := (issued + 1 + HALF) % WORD - HALF;
      issued := issued + 1;
      rest := next;
    }

    /** invoke and invoke_with_id; the clock is read before the lock is taken. */
    method Invoke(timeout: int) returns (t: nat, sent: bool, ghost steps: seq<Step>)
      requires Inv(Model()) && issued < WORD
      modifies this
      ensures Reached(old(Model()), steps, Model()) && StartsWith(steps, Draw(timeout)) && t == old(issued)
      ensures t in Model().calls && Model().calls[t].timeout == timeout
      ensures if sent then Model().calls[t].phase.Waiting? else Model().calls[t].phase == Done && !IsPending(Model(), t)
    {
      hide Inv, Run, Apply;
      ghost var before := Model();
      RunNothing(Next, before);
      var id: Int64;
      t, id := DrawId(timeout);
      steps := Took(before, [], before, Draw(timeout));
      DrawnNow(before, timeout);
      steps := Pause(CallOf(t), before, steps);
      var created := now;
      steps := Pause(CallOf(t), before, steps);
      ghost var mid := Model();
      Insert(t, id, created, timeout);
      steps := Took(before, steps, mid, Register(t, created));
      steps := Pause(CallOf(t), before, steps);
      mid := Model();
      sent := *;
      if sent {
        MarkSent(t);
        steps := Took(before, steps, mid, SendDone(t));
      } else {
        Withdraw(t, id);
        steps := Took(before, steps, mid, SendFailed(t));
      }
    }

    method Insert(t: nat, id: Int64, created: int, timeout: int)
      requires Enabled(Model(), Register(t, created)) && id == IdOf(t) && timeout == Model().calls[t].timeout
      modifies `pending, `rest
      ensures Model() == Apply(old(Model()), Register(t, created))
      ensures InPhase(Model(), t, Sending) && Model().calls[t].timeout == timeout
    {
      ghost var next := Apply(Model(), Register(t, created));
      pending := pending[id := Entry(t, if timeout > 0 then created + timeout else NEVER)];
      rest := next;
    }

    ghost method MarkSent(t: nat)
      requires Enabled(Model(), SendDone(t))
      modifies `rest
      ensures Model() == Apply(old(Model()), SendDone(t))
      ensures t in Model().calls && Model().calls[t].phase.Waiting?
      ensures Model().calls[t].timeout == old(Model().calls[t].timeout)
    {
      rest := Apply(Model(), SendDone(t));
    }

    /** The catch block of a failed send. */
    method Withdraw(t: nat, id: Int64)
      requires Enabled(Model(), SendFailed(t)) && id == IdOf(t)
      modifies `pending, `rest
      ensures Model() == Apply(old(Model()), SendFailed(t))
      ensures InPhase(Model(), t, Done) && !IsPending(Model(), t)
      ensures Model().calls[t].timeout == old(Model().calls[t].timeout)
    {
      ghost var next := Apply(Model(), SendFailed(t));
      pending := pending - {id};
      rest := next;
    }

    /** Finds and erases one entry. */
    method TakeOne(id: Int64) returns (taken: seq<Entry>)
      modifies `pending
      ensures pending == old(pending) - {id}
      ensures taken == if id in old(pending) then [old(pending)[id]] else []
    {
      taken := [];
      if id in pending {
        taken := [pending[id]];
        pending := pending - {id};
      } else {
        assert pending == pending - {id};
      }
    }

    /** fail_pending_request, once the caller has waited long enough. */
    method FailPendingRequest(t: nat) returns (ghost steps: seq<Step>)
      requires Inv(Model()) && issued <= WORD && Enabled(Model(), CallerTimesOut(t)) && !HeldBy(Model(), t, CallOf(t))
      modifies this
      ensures Reached(old(Model()), steps, Model()) && StartsWith(steps, CallerTimesOut(t))
      ensures IsPending(old(Model()), t) ==> SettledAs(Model(), t, TimedOut(old(now)))
      ensures !HeldBy(Model(), t, CallOf(t))
    {
      hide Inv, Run;
      ghost var before := Model();
      RunNothing(Next, before);
      ghost var next := Apply(before, CallerTimesOut(t));
      var taken := TakeOne(IdOf(t));
      rest := next;
      CallerHolds(before, t, taken);
      steps := Took(before, [], before, CallerTimesOut(t));
      steps := SettleAll(CallOf(t), taken, before, steps);
      assert !HeldBy(Model(), t, CallOf(t));
      if IsPending(before, t) {
        OwnIsTaken(before, t);
        SettledAfter(before, CallerTimesOut(t), steps, Model(), t, Hand(Caller, TimedOut(before.now)));
      }
    }

    /** The critical section of handle_response; a message that answers no call takes nothing. */
    method TakeAnswered(m: Message) returns (taken: seq<Entry>)
      requires Inv(Model()) && Enabled(Model(), Receive(m))
      modifies `pending, `rest
      ensures Model() == Apply(old(Model()), Receive(m)) && HoldsExactly(Model(), ReadThread, taken)
      ensures Model().reader == Live
    {
      hide Inv, HoldsExactly;
      ghost var before := Model();
      ghost var next := Apply(before, Receive(m));
      var c := Completion(m);
      taken := [];
      if c.None? {
        NothingTaken(next, Reader);
      } else {
        taken := TakeOne(c.value.0);
        assert Lists(before.pending, {c.value.0}, if taken == [] then [] else [c.value.0], taken);
        TakenIsHeld(before, {c.value.0}, Reader, c.value.1, taken, next);
      }
      rest := next;
    }

    method HandleResponse(m: Message) returns (ghost steps: seq<Step>)
      requires Inv(Model()) && issued <= WORD && Enabled(Model(), Receive(m))
      modifies this
      ensures Reached(old(Model()), steps, Model()) && StartsWith(steps, Receive(m))
      ensures forall id: Int64, j | id in old(pending) && Responds(m, id) && HasValue(m, j) ::
                SettledAs(Model(), old(pending)[id].ticket, Value(j))
      ensures forall id: Int64, code, text, data |
                id in old(pending) && Responds(m, id) && HasError(m, code, text, data) ::
                SettledAs(Model(), old(pending)[id].ticket, ServerError(code, text, data))
      ensures !Answers(m, old(pending)) ==>
                Next(old(Model()), steps[0]) == Some(old(Model()).(received := old(Model()).received + {m}))
      ensures Model().reader == Live && Idles(Model(), Reader)
    {
      hide Inv, Run, Apply, Enabled, HoldsExactly, Idles;
      ghost var before := Model();
      RunNothing(Next, before);
      var taken := TakeAnswered(m);
      steps := Took(before, [], before, Receive(m));
      steps := SettleAll(ReadThread, taken, before, steps);
      NothingHeld(Model(), ReadThread, Reader);
      SettlesByMembers(before, m, steps, Model());
    }

    method TakeExpired(at: int) returns (expired: seq<Entry>, next: int)
      requires Inv(Model()) && Enabled(Model(), Scan(at))
      modifies `pending, `rest
      ensures Model() == Apply(old(Model()), Scan(at)) && HoldsExactly(Model(), TimeoutThread, expired)
      ensures Model().timer == Live && IsNextDeadline(old(pending) - Expired(old(pending), at), next)
    {
      hide Inv, HoldsExactly;
      ghost var before := Model();
      ghost var after := Apply(before, Scan(at));
      expired, next := ScanExpired(at);
      TakenIsHeld(before, Expired(before.pending, at), Timer, TimedOut(at), expired, after);
      rest := after;
    }

    /** One pass of the timeout thread. */
    method TimeoutPass(at: int) returns (next: int, ghost steps: seq<Step>)
      requires Inv(Model()) && issued <= WORD && Enabled(Model(), Scan(at))
      modifies this
      ensures Reached(old(Model()), steps, Model()) && StartsWith(steps, Scan(at))
      ensures forall id | id in Expired(old(pending), at) :: SettledAs(Model(), old(pending)[id].ticket, TimedOut(at))
      ensures IsNextDeadline(old(pending) - Expired(old(pending), at), next)
      ensures Model().timer == Live && Idles(Model(), Timer)
    {
      hide Inv, Run, Apply, Enabled, HoldsExactly, Idles;
      ghost var before := Model();
      RunNothing(Next, before);
      var expired;
      expired, next := TakeExpired(at);
      steps := Took(before, [], before, Scan(at));
      steps := SettleAll(TimeoutThread, expired, before, steps);
      NothingHeld(Model(), TimeoutThread, Timer);
      ScanTakes(before, at);
      TakenAreSettled(before, Scan(at), Expired(before.pending, at), Timer, TimedOut(at), steps, Model());
    }

    method TakeRemaining(ghost stopping: bool) returns (taken: seq<Entry>)
      requires Inv(Model()) && Enabled(Model(), SweepBy(stopping)) && Idles(Model(), SweeperOf(stopping))
      modifies `pending, `rest
      ensures Model() == Apply(old(Model()), SweepBy(stopping))
      ensures HoldsExactly(Model(), OwnerOf(SweeperOf(stopping), 0), taken)
      ensures !stopping ==> Model().reader == Emptied
    {
      hide Inv, HoldsExactly, Apply, Enabled, Take, Idles, TakenFrom;
      ghost var before := Model();
      ghost var after := Apply(before, SweepBy(stopping));
      SweepEmpties(before, stopping);
      taken := TakeAll();
      TakenIsHeld(before, before.pending.Keys, SweeperOf(stopping), Closed, taken, after);
      rest := after;
    }

    /** fail_all_pending, as the read thread calls it at the end of the stream and stop() after the joins. */
    method FailAllPending(ghost stopping: bool) returns (ghost steps: seq<Step>)
      requires Inv(Model()) && issued <= WORD && Enabled(Model(), SweepBy(stopping))
      requires Idles(Model(), SweeperOf(stopping))
      modifies this
      ensures Reached(old(Model()), steps, Model()) && StartsWith(steps, SweepBy(stopping))
      ensures forall id | id in old(pending) :: SettledAs(Model(), old(pending)[id].ticket, Closed)
      ensures Idles(Model(), SweeperOf(stopping))
    {
      hide Inv, Run, Apply, Enabled, HoldsExactly, Idles;
      ghost var before := Model();
      RunNothing(Next, before);
      var taken := TakeRemaining(stopping);
      steps := Took(before, [], before, SweepBy(stopping));
      steps := SettleAll(OwnerOf(SweeperOf(stopping), 0), taken, before, steps);
      NothingHeld(Model(), OwnerOf(SweeperOf(stopping), 0), SweeperOf(stopping));
      SweepEmpties(before, stopping);
      TakenAreSettled(before, SweepBy(stopping), before.pending.Keys, SweeperOf(stopping), Closed, steps, Model());
    }

    /** The loops after the critical sections: promise by promise, while others go on. */
    method SettleAll(ghost who: Role, entries: seq<Entry>, ghost before: State, ghost steps: seq<Step>)
      returns (ghost longer: seq<Step>)
      requires Reached(before, steps, Model()) && HoldsExactly(Model(), who, entries)
      requires who.ReadThread? ==> Model().reader != NotStarted
      requires who.TimeoutThread? ==> Model().timer != NotStarted
      modifies this
      ensures Reached(before, longer, Model()) && HoldsExactly(Model(), who, []) && steps <= longer
      ensures who.ReadThread? ==> Model().reader == old(Model().reader)
      ensures who.TimeoutThread? ==> Model().timer == old(Model().timer)
    {
      hide Reached;
      longer := steps;
      assert entries[0..] == entries;
      for i := 0 to |entries|
        invariant Reached(before, longer, Model()) && HoldsExactly(Model(), who, entries[i..]) && steps <= longer
        invariant who.ReadThread? ==> Model().reader == old(Model().reader)
        invariant who.TimeoutThread? ==> Model().timer == old(Model().timer)
      {
        longer := Pause(who, before, longer);
        ghost var mid := Model();
        ghost var t := entries[i].ticket;
        assert entries[i..][0] == entries[i] && entries[i..][1..] == entries[i + 1..];
        assert HeldBy(mid, t, who);
        rest := Apply(mid, Settle(t));
        longer := Took(before, longer, mid, Settle(t));
        OneSettled(mid, who, entries[i..]);
      }
      assert entries[|entries|..] == [];
    }

    /** The critical section of one pass, in id order. */
    method ScanExpired(at: int) returns (expired: seq<Entry>, next: int)
      modifies `pending
      ensures pending == old(pending) - Expired(old(pending), at)
      ensures TakenFrom(old(pending), Expired(old(pending), at), expired)
      ensures IsNextDeadline(pending, next)
    {
      hide Lists, Passed;
      expired, next := [], NEVER;
      ghost var ids: seq<Int64> := [];
      var left := pending.Keys;
      ghost var all := pending;
      PassedNone(all, at);
      while left != {}
        invariant left <= all.Keys && pending == all - Passed(all, left, at)
        invariant Lists(all, Passed(all, left, at), ids, expired)
        invariant forall i, id | 0 <= i < |ids| && id in left :: ids[i] < id
        invariant next <= NEVER
        invariant forall id | id in pending && id !in left :: at < pending[id].deadline && next <= pending[id].deadline
        invariant next == NEVER || exists id :: id in pending && id !in left && pending[id].deadline == next
        decreases left
      {
        ghost var least := LeastExists(left);
        var id :| id in left && IsLeast(id, left);
        LeastIsBelow(id, left);
        PassedNext(all, left, at, id);
        if pending[id].deadline <= at {
          ListsNext(all, Passed(all, left, at), ids, expired, id);
          expired, ids := expired + [pending[id]], ids + [id];
          pending := pending - {id};
        } else if pending[id].deadline < next {
          next := pending[id].deadline;
        }
        left := left - {id};
      }
      PassedAll(all, at);
      assert Lists(all, Expired(all, at), ids, expired);
    }

    /** The critical section of fail_all_pending, in id order. */
    method TakeAll() returns (taken: seq<Entry>)
      modifies `pending
      ensures pending == map[] && TakenFrom(old(pending), old(pending).Keys, taken)
    {
      taken := [];
      ghost var ids: seq<Int64> := [];
      var left := pending.Keys;
      while left != {}
        invariant pending == old(pending) && left <= pending.Keys
        invariant Lists(pending, pending.Keys - left, ids, taken)
        invariant forall i, id | 0 <= i < |ids| && id in left :: ids[i] < id
        decreases left
      {
        ghost var least := LeastExists(left);
        var id :| id in left && IsLeast(id, left);
        LeastIsBelow(id, left);
        taken, ids := taken + [pending[id]], ids + [id];
        left := left - {id};
      }
      assert Lists(pending, pending.Keys, ids, taken);
      pending := map[];
    }
  }

  /** The least deadline, or the one that never comes. */
  ghost predicate IsNextDeadline(pending: Pending, next: int) {
    && next <= NEVER && (forall id | id in pending :: next <= pending[id].deadline)
    && (next == NEVER || exists id :: id in pending && pending[id].deadline == next)
  }

  predicate StartsWith(steps: seq<Step>, step: Step) {
    |steps| > 0 && steps[0] == step
  }

  predicate SettledAs(s: State, t: nat, outcome: Outcome) {
    t in s.settled && s.settled[t] == outcome
  }

  /** In this very hand, or settled with what was in it. */
  predicate Fated(s: State, t: nat, hand: Hand) {
    (t in s.hands && s.hands[t] == hand) || SettledAs(s, t, hand.outcome)
  }

  lemma TakeKeepsFate(s: State, ids: set<Int64>, who: Actor, outcome: Outcome, t: nat, hand: Hand)
    requires DataInv(s) && t in s.calls && Fated(s, t, hand)
    ensures Fated(Take(s, ids, who, outcome), t, hand)
  {
    hide DataInv;
    NotPending(s, t);
    TakeMovesOne(s, ids, who, outcome, t);
  }

  lemma StepKeepsFate(s: State, step: Step, t: nat, hand: Hand)
    requires Inv(s) && Enabled(s, step) && t in s.calls && Fated(s, t, hand)
    ensures t in Apply(s, step).calls && Fated(Apply(s, step), t, hand)
  {
    hide DataInv, ThreadsInv, Idles, Expired, Tickets, Take, Completion;
    match step
    case CallerTimesOut(c) =>
      PhaseKeeps(s, c, Done);
      TakeKeepsFate(SetPhase(s, c, Done), {IdOf(c)}, Caller, TimedOut(s.now), t, hand);
    case Receive(m) =>
      var c := Completion(m);
      var s1 := s.(received := s.received + {m});
      QuietKeeps(s, s1);
      if c.Some? {
        TakeKeepsFate(s1, {c.value.0}, Reader, c.value.1, t, hand);
      }
    case ReaderSweeps => TakeKeepsFate(s, s.pending.Keys, Reader, Closed, t, hand);
    case Scan(at) => TakeKeepsFate(s, Expired(s.pending, at), Timer, TimedOut(at), t, hand);
    case StopSweeps => TakeKeepsFate(s, s.pending.Keys, Stopper, Closed, t, hand);
    case Settle(k) => HeldIsUnsettled(s, k);
    case _ =>
  }

  /** A promise in a hand stays there until it is settled with the outcome it was taken for. */
  lemma {:induction false} RunKeepsFate(s: State, steps: seq<Step>, end: State, t: nat, hand: Hand)
    requires Inv(s) && Run(Next, s, steps, end) && end.issued <= WORD && t in s.calls && Fated(s, t, hand)
    ensures Fated(end, t, hand)
    decreases |steps|
  {
    hide Apply, Enabled, Inv, Fated;
    if |steps| > 0 {
      RunOnlyIssues(s, steps, end);
      StepKeepsInv(s, steps[0]);
      StepKeepsFate(s, steps[0], t, hand);
      RunKeepsFate(Apply(s, steps[0]), steps[1..], end, t, hand);
    }
  }

  lemma SettledAfter(before: State, step: Step, steps: seq<Step>, end: State, t: nat, hand: Hand)
    requires Reached(before, steps, end) && StartsWith(steps, step) && Enabled(before, step)
    requires var mid := Apply(before, step); t in mid.calls && Fated(mid, t, hand)
    requires !(t in end.hands && end.hands[t] == hand)
    ensures SettledAs(end, t, hand.outcome)
  {
    hide Apply, Enabled, Inv;
    RunOnlyIssues(before, steps, end);
    StepKeepsInv(before, step);
    RunKeepsFate(Apply(before, step), steps[1..], end, t, hand);
  }

  lemma TicketsAreCalls(s: State, id: Int64)
    requires PendingInv(s) && id in s.pending
    ensures s.pending[id].ticket in s.calls
  {
  }

  lemma TakenHand(s: State, ids: set<Int64>, holder: Actor, outcome: Outcome, id: Int64)
    requires id in ids && id in s.pending
    ensures var t, hands := s.pending[id].ticket, Take(s, ids, holder, outcome).hands;
            t in hands && hands[t] == Hand(holder, outcome)
  {
    assert s.pending[id].ticket in Tickets(s.pending, ids);
  }

  lemma ReceiveTakes(s: State, m: Message)
    requires Enabled(s, Receive(m)) && Completion(m).Some?
    ensures var c, next := Completion(m).value, Apply(s, Receive(m));
            next.hands == Take(s, {c.0}, Reader, c.1).hands && next.calls == s.calls
  {
  }

  /** A response to a pending call that has a result or a well-formed error. */
  predicate Answers(m: Message, pending: Pending) {
    && !m.hasMethod && m.id.Integer? && m.id.n in pending
    && (m.error.ErrorObject? || (m.error.NoError? && m.result.Some?))
  }

  lemma IdleReceive(s: State, m: Message)
    requires Enabled(s, Receive(m)) && !Answers(m, s.pending)
    ensures Apply(s, Receive(m)) == s.(received := s.received + {m})
  {
    var c := Completion(m);
    if c.Some? {
      assert s.pending - {c.value.0} == s.pending;
      assert Tickets(s.pending, {c.value.0}) == {};
    }
  }

  lemma SettlesByMembers(before: State, m: Message, steps: seq<Step>, end: State)
    requires Reached(before, steps, end) && StartsWith(steps, Receive(m)) && Enabled(before, Receive(m))
    requires Idles(end, Reader)
    ensures forall id: Int64, j | id in before.pending && Responds(m, id) && HasValue(m, j) ::
              SettledAs(end, before.pending[id].ticket, Value(j))
    ensures forall id: Int64, code, text, data |
              id in before.pending && Responds(m, id) && HasError(m, code, text, data) ::
              SettledAs(end, before.pending[id].ticket, ServerError(code, text, data))
    ensures !Answers(m, before.pending) ==>
              Next(before, steps[0]) == Some(before.(received := before.received + {m}))
  {
    hide Reached, Apply, Enabled, Idles, Completion, SettledAs;
    var c := Completion(m);
    if c.Some? {
      ReceiveTakes(before, m);
      TakenAreSettled(before, Receive(m), {c.value.0}, Reader, c.value.1, steps, end);
    }
    forall id: Int64 | id in before.pending && Responds(m, id)
      ensures forall j | HasValue(m, j) :: c == Some((id, Value(j)))
      ensures forall code, text, data | HasError(m, code, text, data) :: c == Some((id, ServerError(code, text, data)))
    {
      CompletionMeans(m, id);
    }
    if !Answers(m, before.pending) {
      IdleReceive(before, m);
    }
  }

  lemma ScanTakes(s: State, at: int)
    requires Enabled(s, Scan(at))
    ensures var next := Apply(s, Scan(at));
            next.hands == Take(s, Expired(s.pending, at), Timer, TimedOut(at)).hands && next.calls == s.calls
  {
  }

  /** When the hand is empty again, everything the section took has been settled. */
  lemma TakenAreSettled(
    before: State, step: Step, ids: set<Int64>, holder: Actor, outcome: Outcome, steps: seq<Step>, end: State)
    requires Reached(before, steps, end) && StartsWith(steps, step) && Enabled(before, step)
    requires Apply(before, step).hands == Take(before, ids, holder, outcome).hands
    requires before.calls.Keys <= Apply(before, step).calls.Keys && Idles(end, holder)
    ensures forall id | id in ids && id in before.pending :: SettledAs(end, before.pending[id].ticket, outcome)
  {
    hide Apply, Enabled, Inv, Take, Run;
    PartOfInv(before);
    forall id | id in ids && id in before.pending
      ensures SettledAs(end, before.pending[id].ticket, outcome)
    {
      TicketsAreCalls(before, id);
      TakenHand(before, ids, holder, outcome, id);
      SettledAfter(before, step, steps, end, before.pending[id].ticket, Hand(holder, outcome));
    }
  }

  lemma OwnIsTaken(s: State, t: nat)
    requires Enabled(s, CallerTimesOut(t)) && IsPending(s, t)
    ensures t in Apply(s, CallerTimesOut(t)).calls
    ensures Fated(Apply(s, CallerTimesOut(t)), t, Hand(Caller, TimedOut(s.now)))
  {
    assert t in Tickets(s.pending, {IdOf(t)});
  }

  lemma PassedNone(all: Pending, at: int)
    ensures Passed(all, all.Keys, at) == {} && all - {} == all && Lists(all, {}, [], [])
  {
  }

  lemma PassedNext(all: Pending, left: set<Int64>, at: int, id: Int64)
    requires left <= all.Keys && id in left
    ensures id !in Passed(all, left, at)
    ensures all[id].deadline <= at ==> Passed(all, left - {id}, at) == Passed(all, left, at) + {id}
    ensures all[id].deadline > at ==> Passed(all, left - {id}, at) == Passed(all, left, at)
    ensures forall k | k in Passed(all, left, at) :: k !in left
  {
  }

  lemma PassedAll(all: Pending, at: int)
    ensures Passed(all, {}, at) == Expired(all, at)
  {
  }

  lemma ListsNext(from: Pending, which: set<Int64>, ids: seq<Int64>, entries: seq<Entry>, id: Int64)
    requires Lists(from, which, ids, entries) && id in from && forall i | 0 <= i < |ids| :: ids[i] < id
    ensures Lists(from, which + {id}, ids + [id], entries + [from[id]])
  {
  }

  /** The entries under these ids, in increasing order of id. */
  ghost predicate Lists(from: Pending, which: set<Int64>, ids: seq<Int64>, entries: seq<Entry>) {
    && |ids| == |entries|
    && (forall id :: id in ids <==> id in which && id in from)
    && (forall i | 0 <= i < |ids| :: ids[i] in from && entries[i] == from[ids[i]])
    && (forall i, j | 0 <= i < j < |ids| :: ids[i] < ids[j])
  }

  ghost predicate TakenFrom(from: Pending, which: set<Int64>, entries: seq<Entry>) {
    exists ids :: Lists(from, which, ids, entries)
  }

  /** The expired entries a scan has already passed. */
  ghost function Passed(all: Pending, left: set<Int64>, now: int): set<Int64> {
    Expired(all, now) - left
  }

  predicate IsLeast(x: Int64, s: set<Int64>) {
    x in s && forall y | y in s :: x <= y
  }

  lemma LeastIsBelow(x: Int64, s: set<Int64>)
    requires IsLeast(x, s)
    ensures forall y | y in s - {x} :: x < y
  {
    forall y | y in s - {x}
      ensures x < y
    {
      assert y in s && y != x;
    }
  }

  lemma {:induction false} LeastExists(s: set<Int64>) returns (least: Int64)
    requires s != {}
    ensures IsLeast(least, s)
    decreases s
  {
    least :| least in s;
    if s != {least} {
      var other := LeastExists(s - {least});
      assert forall y | y in s :: y == least || y in s - {least};
      least := if least < other then least else other;
    }
  }

  // ------------------------------------------------- what the code relies on

  lemma DrawnNow(s: State, timeout: int)
    ensures var next := Apply(s, Draw(timeout));
            && InPhase(next, s.issued, Drawn) && next.calls[s.issued].timeout == timeout
            && next.calls[s.issued].created == next.now
  {
  }

  function SweepBy(stopping: bool): Step {
    if stopping then StopSweeps else ReaderSweeps
  }

  function SweeperOf(stopping: bool): Actor {
    if stopping then Stopper else Reader
  }

  lemma SweepEmpties(s: State, stopping: bool)
    requires Enabled(s, SweepBy(stopping))
    ensures var next := Apply(s, SweepBy(stopping));
            && next.pending == map[] && next.now == s.now && next.issued == s.issued
            && next.hands == Take(s, s.pending.Keys, SweeperOf(stopping), Closed).hands
            && (!stopping ==> next.reader == Emptied) && next.calls == s.calls
  {
  }

  lemma NothingTaken(s: State, holder: Actor)
    requires Idles(s, holder) && !holder.Caller?
    ensures HoldsExactly(s, OwnerOf(holder, 0), [])
  {
  }

  lemma ListedTickets(from: Pending, ids: set<Int64>, listed: seq<Int64>, taken: seq<Entry>, t: nat)
    requires Lists(from, ids, listed, taken)
    ensures t in Tickets(from, ids) <==> exists i :: 0 <= i < |taken| && taken[i].ticket == t
  {
    if t in Tickets(from, ids) {
      var id :| id in ids && id in from && from[id].ticket == t;
      var i :| 0 <= i < |listed| && listed[i] == id;
      assert taken[i].ticket == t;
    }
    if i :| 0 <= i < |taken| && taken[i].ticket == t {
      assert listed[i] in listed;
    }
  }

  lemma ListedOnce(s: State, ids: set<Int64>, listed: seq<Int64>, taken: seq<Entry>)
    requires PendingInv(s) && Lists(s.pending, ids, listed, taken)
    ensures forall i, j | 0 <= i < j < |taken| :: taken[i].ticket != taken[j].ticket
  {
    forall i, j | 0 <= i < j < |taken|
      ensures taken[i].ticket != taken[j].ticket
    {
      assert listed[i] == IdOf(taken[i].ticket) && listed[j] == IdOf(taken[j].ticket);
    }
  }

  lemma HeldAfterTake(s: State, ids: set<Int64>, holder: Actor, outcome: Outcome, t: nat)
    requires Idles(s, holder) && !holder.Caller?
    ensures HeldBy(Take(s, ids, holder, outcome), t, OwnerOf(holder, 0)) <==> t in Tickets(s.pending, ids)
  {
  }

  /** After the critical section the hand holds what was taken, and nothing else. */
  lemma TakenIsHeld(s: State, ids: set<Int64>, holder: Actor, outcome: Outcome, taken: seq<Entry>, next: State)
    requires Inv(s) && Idles(s, holder) && !holder.Caller? && TakenFrom(s.pending, ids, taken)
    requires next.hands == Take(s, ids, holder, outcome).hands
    ensures HoldsExactly(next, OwnerOf(holder, 0), taken)
  {
    hide Inv, Tickets, Idles, Lists, Take, PendingInv;
    var listed :| Lists(s.pending, ids, listed, taken);
    PartOfInv(s);
    ListedOnce(s, ids, listed, taken);
    forall t: nat
      ensures HeldBy(next, t, OwnerOf(holder, 0)) <==> exists i :: 0 <= i < |taken| && taken[i].ticket == t
    {
      HeldAfterTake(s, ids, holder, outcome, t);
      ListedTickets(s.pending, ids, listed, taken, t);
    }
  }

  lemma PartOfInv(s: State)
    requires Inv(s)
    ensures CallsInv(s) && PendingInv(s)
  {
  }

  lemma CallerHolds(s: State, t: nat, taken: seq<Entry>)
    requires Inv(s) && s.issued <= WORD && Enabled(s, CallerTimesOut(t)) && !HeldBy(s, t, CallOf(t))
    requires taken == if IdOf(t) in s.pending then [s.pending[IdOf(t)]] else []
    ensures HoldsExactly(Apply(s, CallerTimesOut(t)), CallOf(t), taken)
  {
    hide DataInv, ThreadsInv;
    var next := Apply(s, CallerTimesOut(t));
    forall k | k in Tickets(s.pending, {IdOf(t)})
      ensures k == t
    {
      OwnTicket(s, t, k);
    }
    if IdOf(t) in s.pending {
      assert s.pending[IdOf(t)].ticket in Tickets(s.pending, {IdOf(t)});
      assert next.hands[t] == Hand(Caller, TimedOut(s.now));
    }
    forall k: nat
      ensures HeldBy(next, k, CallOf(t)) <==> k == t && taken != []
    {
    }
    assert taken != [] ==> taken[0].ticket == t;
  }

  lemma NothingHeld(s: State, who: Role, holder: Actor)
    requires HoldsExactly(s, who, []) && forall t: nat :: OwnerOf(holder, t) == who
    ensures Idles(s, holder)
  {
    forall t | t in s.hands
      ensures s.hands[t].holder != holder
    {
      assert !HeldBy(s, t, who);
    }
  }

  /** Settling the first of the promises held leaves the others held. */
  lemma OneSettled(s: State, who: Role, entries: seq<Entry>)
    requires |entries| > 0 && HoldsExactly(s, who, entries) && HeldBy(s, entries[0].ticket, who)
    ensures HoldsExactly(Apply(s, Settle(entries[0].ticket)), who, entries[1..])
  {
    var next, others := Apply(s, Settle(entries[0].ticket)), entries[1..];
    forall t: nat
      ensures HeldBy(next, t, who) <==> exists i :: 0 <= i < |others| && others[i].ticket == t
    {
      if HeldBy(next, t, who) {
        assert HeldBy(s, t, who);
        var i :| 0 <= i < |entries| && entries[i].ticket == t;
        assert others[i - 1].ticket == t;
      }
      if i :| 0 <= i < |others| && others[i].ticket == t {
        assert entries[i + 1].ticket == t && HeldBy(s, t, who);
      }
    }
  }
}
