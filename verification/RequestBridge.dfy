/**
  The request-handler bridge: request chunks are collected per exchange, an HTTP
  handler runs on its own thread once the request ends, and its response goes
  back frame by frame while cancellation may arrive at any moment.
 */
module RequestBridge {
  import opened Basics

  // ------------------------------------------------------ response frames

  datatype Frame = Start | Chunk(data: string, end: bool) | Failure

  predicate Ends(f: Frame) {
    f.Failure? || (f.Chunk? && f.end)
  }

  function ChunkFrames(chunks: seq<string>): seq<Frame> {
    if |chunks| == 0 then [] else [Chunk(chunks[0], |chunks| == 1)] + ChunkFrames(chunks[1..])
  }

  /** What a complete response sends; one without chunks ends with an empty one. */
  function Script(chunks: seq<string>): seq<Frame> {
    [Start] + (if |chunks| == 0 then [Chunk("", true)] else ChunkFrames(chunks))
  }

  function Join(parts: seq<string>): string {
    if |parts| == 0 then "" else parts[0] + Join(parts[1..])
  }

  function Data(frames: seq<Frame>): string {
    if |frames| == 0 then ""
    else if frames[0].Chunk? then frames[0].data + Data(frames[1..])
    else Data(frames[1..])
  }

  /** A prefix of the script, followed by a failure only when it is a proper one. */
  ghost predicate GoodOutput(script: seq<Frame>, acked: seq<Frame>) {
    || acked <= script
    || (|acked| > 0 && acked[|acked| - 1] == Failure && acked[..|acked| - 1] < script)
  }

  lemma {:induction false} ChunkFramesShape(chunks: seq<string>)
    ensures |ChunkFrames(chunks)| == |chunks|
    ensures forall i | 0 <= i < |chunks| :: ChunkFrames(chunks)[i] == Chunk(chunks[i], i == |chunks| - 1)
    ensures Data(ChunkFrames(chunks)) == Join(chunks)
  {
    if |chunks| > 0 {
      ChunkFramesShape(chunks[1..]);
      assert ChunkFrames(chunks)[1..] == ChunkFrames(chunks[1..]);
    }
  }

  lemma ScriptShape(chunks: seq<string>)
    ensures var s := Script(chunks);
            && |s| >= 2 && s[0] == Start && Data(s) == Join(chunks)
            && (chunks == [] ==> s[1..] == [Chunk("", true)])
            && (chunks != [] ==> |s| == |chunks| + 1)
            && (forall i | 0 <= i < |chunks| :: s[i + 1] == Chunk(chunks[i], i == |chunks| - 1))
            && forall i | 0 <= i < |s| :: Ends(s[i]) <==> i == |s| - 1
  {
    ChunkFramesShape(chunks);
    var s := Script(chunks);
    assert s[1..] == if |chunks| == 0 then [Chunk("", true)] else ChunkFrames(chunks);
    if |chunks| == 0 {
      assert s[1..][1..] == [];
    }
  }

  /** At most one acknowledged frame ends the response, and nothing follows it. */
  lemma NothingAfterTheEnd(chunks: seq<string>, acked: seq<Frame>, i: nat)
    requires GoodOutput(Script(chunks), acked) && i < |acked| && Ends(acked[i])
    ensures i == |acked| - 1
    ensures acked[i].Chunk? ==> acked == Script(chunks) && Data(acked) == Join(chunks)
  {
    ScriptShape(chunks);
  }

  // -------------------------------------------------- all threads together

  datatype Worker =
    | NotSpawned
    | FirstCheck
    | Handling
    | SecondCheck
    | Sending
    | Failing
    | SendingFailure
    | Erasing
    | Finished

  datatype Exchange = Exchange(
    websocket: bool,
    received: seq<string>,
    body: string,
    ended: bool,
    worker: Worker,
    given: string,
    script: seq<Frame>,
    acked: seq<Frame>,
    checkedAt: Option<nat>,
    cancelledAt: Option<nat>,
    completed: bool)

  /** What the read thread is doing with an exchange it has looked up. */
  datatype Reader = Idle | Found(id: string, data: string, cancel: bool, end: bool) | Erases(id: string)

  datatype State = State(
    time: nat,
    exchanges: map<string, Exchange>,
    pending: set<string>,
    reader: Reader,
    swapped: set<string>,
    stuck: set<string>)

  const INIT := State(0, map[], {}, Idle, {}, {})

  datatype Step =
    | StartRequest(id: string, websocket: bool, accepted: bool)
    | LookUp(id: string, data: string, cancel: bool, end: bool)
    | Act(closed: bool)
    | ReaderErases
    | Works(id: string, act: Act)
    | WorkerErases(id: string)
    | SwapOut
    | CancelOne(id: string)

  /** One step of the thread that runs complete_http. */
  datatype Act =
    | CheckFirst
    | HandlerThrows
    | HandlerReturns(chunks: seq<string>)
    | CheckSecond
    | SendNext(ok: bool)
    | CheckFailure
    | SendFailure(ok: bool)

  predicate At(s: State, id: string, w: Worker) {
    id in s.exchanges && s.exchanges[id].worker == w
  }

  predicate CanWork(e: Exchange, act: Act) {
    match act
    case CheckFirst => e.worker == FirstCheck
    case HandlerThrows => e.worker == Handling
    case HandlerReturns(_) => e.worker == Handling
    case CheckSecond => e.worker == SecondCheck
    case SendNext(_) => e.worker == Sending && |e.acked| < |e.script|
    case CheckFailure => e.worker == Failing
    case SendFailure(_) => e.worker == SendingFailure
  }

  /** Peers start each id once and send no data after `end`; a cancel may come at any time. */
  predicate Enabled(s: State, step: Step) {
    match step
    case StartRequest(id, _, _) => s.reader.Idle? && id !in s.exchanges
    case LookUp(id, _, cancel, _) =>
      s.reader.Idle? && (id in s.pending && id in s.exchanges && !cancel ==> !s.exchanges[id].ended)
    case Act(closed) => s.reader.Found? && s.reader.id in s.exchanges && (s.exchanges[s.reader.id].websocket || closed)
    case ReaderErases => s.reader.Erases? && s.reader.id in s.exchanges
    case Works(id, act) => id in s.exchanges && CanWork(s.exchanges[id], act)
    case WorkerErases(id) => At(s, id, Erasing)
    case SwapOut => s.swapped == {}
    case CancelOne(id) => id in s.swapped && id in s.exchanges
  }

  function Put(s: State, id: string, e: Exchange): State {
    s.(exchanges := s.exchanges[id := e])
  }

  function Cancel(e: Exchange, time: nat): Exchange {
    if e.cancelledAt.Some? then e else e.(cancelledAt := Some(time))
  }

  /** A chunk arrives, and perhaps the end of the request. */
  function Take(e: Exchange, data: string, end: bool): Exchange {
    var taken := e.(received := e.received + [data], body := e.body + data);
    if end then taken.(ended := true, worker := FirstCheck) else taken
  }

  /** What follows the look-up in `handle`: cancel, or take the data and perhaps the end. */
  function ActOn(s: State, closed: bool): State
    requires s.reader.Found? && s.reader.id in s.exchanges
  {
    var id, e := s.reader.id, s.exchanges[s.reader.id];
    if s.reader.cancel then
      var next := Put(s, id, Cancel(e, s.time));
      if closed then next.(reader := Erases(id)) else next.(reader := Idle, stuck := s.stuck + {id})
    else if e.websocket then
      s.(reader := if s.reader.end && closed then Erases(id) else Idle)
    else
      Put(s, id, Take(e, s.reader.data, s.reader.end)).(reader := Idle)
  }

  function Work(e: Exchange, act: Act, time: nat): Exchange
    requires CanWork(e, act)
  {
    match act
    case CheckFirst =>
      if e.cancelledAt.Some? then e.(worker := Finished) else e.(worker := Handling, given := e.body)
    case HandlerThrows => e.(worker := Failing)
    case HandlerReturns(chunks) => e.(worker := SecondCheck, script := Script(chunks))
    case CheckSecond =>
      if e.cancelledAt.Some? then e.(worker := Finished) else e.(worker := Sending, checkedAt := Some(time))
    case SendNext(ok) =>
      if !ok then e.(worker := Failing)
      else
        var acked := e.acked + [e.script[|e.acked|]];
        e.(acked := acked, worker := if acked == e.script then Erasing else Sending)
    case CheckFailure => e.(worker := if e.cancelledAt.Some? then Erasing else SendingFailure)
    case SendFailure(ok) => e.(worker := Erasing, acked := if ok then e.acked + [Failure] else e.acked)
  }

  function NewExchange(websocket: bool): Exchange {
    Exchange(websocket, [], "", false, NotSpawned, "", [], [], None, None, false)
  }

  function Change(s: State, step: Step): State
    requires Enabled(s, step)
  {
    match step
    case StartRequest(id, websocket, accepted) =>
      if websocket && !accepted then s
      else Put(s, id, NewExchange(websocket)).(pending := s.pending + {id})
    case LookUp(id, data, cancel, end) => if id in s.pending then s.(reader := Found(id, data, cancel, end)) else s
    case Act(closed) => ActOn(s, closed)
    case ReaderErases =>
      var id, e := s.reader.id, s.exchanges[s.reader.id];
      Put(s, id, if e.cancelledAt.Some? then e else e.(completed := true)).(pending := s.pending - {id}, reader := Idle)
    case Works(id, act) => Put(s, id, Work(s.exchanges[id], act, s.time))
    case WorkerErases(id) =>
      Put(s, id, s.exchanges[id].(worker := Finished, completed := true)).(pending := s.pending - {id})
    case SwapOut => s.(swapped := s.pending, pending := {})
    case CancelOne(id) => Put(s, id, Cancel(s.exchanges[id], s.time)).(swapped := s.swapped - {id})
  }

  function Apply(s: State, step: Step): State
    requires Enabled(s, step)
  {
    Change(s, step).(time := s.time + 1)
  }

  // ---------------------------------------------------------- the invariant

  /** What the thread of an exchange has received, prepared and sent. */
  ghost predicate FramesInv(e: Exchange) {
    && e.body == Join(e.received)
    && (e.worker == NotSpawned || e.worker == FirstCheck || e.worker == Handling ==> e.script == [] && e.acked == [])
    && (e.worker == SecondCheck ==> e.acked == [] && e.script != [])
    && (e.worker != NotSpawned ==> e.ended && !e.websocket)
    && (e.worker != NotSpawned && e.worker != FirstCheck && e.worker != Finished ==> e.given == e.body)
    && (e.completed && !e.websocket ==> e.worker == Finished && e.given == e.body)
    && (e.worker == Sending ==> e.acked < e.script)
    && (e.worker == Failing || e.worker == SendingFailure ==> (e.script == [] && e.acked == []) || e.acked < e.script)
    && (e.script != [] ==> e.given == e.body && exists chunks :: e.script == Script(chunks))
    && (if e.script == [] then e.acked <= [Failure] else GoodOutput(e.script, e.acked))
  }

  /** The looks at the flag and the cancellation, in time. */
  predicate TimesInv(e: Exchange, time: nat) {
    && (e.cancelledAt.Some? ==> e.cancelledAt.value < time)
    && (Start in e.acked || e.worker == Sending ==> e.checkedAt.Some?)
    && (e.checkedAt.Some? ==> e.checkedAt.value < time)
    && (e.checkedAt.Some? && e.cancelledAt.Some? ==> e.checkedAt.value < e.cancelledAt.value)
  }

  /** What each exchange keeps, wherever its thread is. */
  ghost predicate ExchangeInv(e: Exchange, time: nat) {
    FramesInv(e) && TimesInv(e, time)
  }

  /** Who is in the map: the started exchanges neither cancelled nor completed, but for erasures under way. */
  ghost predicate Booked(s: State, id: string)
    requires id in s.exchanges
  {
    var e := s.exchanges[id];
    && (id in s.pending ==>
          && !e.completed && id !in s.swapped
          && (e.cancelledAt.Some? ==> s.reader == Erases(id) || id in s.stuck))
    && (id !in s.pending ==> e.completed || e.cancelledAt.Some? || id in s.swapped)
    && (e.completed && !e.websocket ==> e.worker == Finished)
    && (e.worker == Finished && id in s.pending ==> e.cancelledAt.Some?)
  }

  ghost predicate Inv(s: State) {
    && s.pending <= s.exchanges.Keys && s.swapped <= s.exchanges.Keys
    && (s.reader.Found? || s.reader.Erases? ==> s.reader.id in s.exchanges)
    && (forall id | id in s.stuck ::
        id in s.exchanges && s.exchanges[id].cancelledAt.Some? && s.exchanges[id].websocket)
    && (s.reader.Found? && !s.reader.cancel ==> !s.exchanges[s.reader.id].ended)
    && (s.reader.Erases? ==> s.exchanges[s.reader.id].cancelledAt.Some? || s.exchanges[s.reader.id].websocket)
    && (forall id | id in s.exchanges :: ExchangeInv(s.exchanges[id], s.time) && Booked(s, id))
  }

  // ------------------------------------------------------------- the proofs

  lemma {:induction false} JoinEnd(parts: seq<string>, last: string)
    ensures Join(parts + [last]) == Join(parts) + last
  {
    if |parts| == 0 {
      assert parts + [last] == [last];
      assert Join([last]) == last + "";
    } else {
      assert (parts + [last])[1..] == parts[1..] + [last];
      JoinEnd(parts[1..], last);
      Assoc(parts[0], Join(parts[1..]), last);
    }
  }

  lemma TimePasses(e: Exchange, time: nat)
    requires ExchangeInv(e, time)
    ensures ExchangeInv(e, time + 1)
  {
  }

  lemma CancelKeeps(e: Exchange, time: nat)
    requires ExchangeInv(e, time)
    ensures ExchangeInv(Cancel(e, time), time + 1)
  {
  }

  lemma PrefixGrows(a: seq<Frame>, b: seq<Frame>)
    requires a <= b && |a| < |b|
    ensures a + [b[|a|]] <= b
  {
    assert b[..|a| + 1] == b[..|a|] + [b[|a|]];
  }

  lemma SendKeeps(e: Exchange, ok: bool, time: nat)
    requires ExchangeInv(e, time) && CanWork(e, SendNext(ok))
    ensures ExchangeInv(Work(e, SendNext(ok), time), time + 1)
  {
    var next := Work(e, SendNext(ok), time);
    if ok {
      PrefixGrows(e.acked, e.script);
    }
  }

  lemma FailureAdded(script: seq<Frame>, acked: seq<Frame>)
    ensures Start in acked + [Failure] <==> Start in acked
    ensures acked < script ==> GoodOutput(script, acked + [Failure])
    ensures acked == [] ==> acked + [Failure] <= [Failure]
  {
    assert (acked + [Failure])[..|acked|] == acked;
  }

  lemma FailureFrames(e: Exchange, ok: bool)
    requires FramesInv(e) && e.worker == SendingFailure
    ensures FramesInv(e.(worker := Erasing, acked := if ok then e.acked + [Failure] else e.acked))
  {
    hide GoodOutput, Script, Join;
    FailureAdded(e.script, e.acked);
    PrefixIsGood(e.script, e.acked);
  }

  lemma FailureKeeps(e: Exchange, ok: bool, time: nat)
    requires ExchangeInv(e, time) && CanWork(e, SendFailure(ok))
    ensures ExchangeInv(Work(e, SendFailure(ok), time), time + 1)
  {
    hide FramesInv;
    FailureFrames(e, ok);
    FailureAdded(e.script, e.acked);
  }

  lemma PrefixIsGood(script: seq<Frame>, acked: seq<Frame>)
    ensures acked <= script ==> GoodOutput(script, acked)
  {
  }

  /** The thread of an exchange keeps its promises at each of its steps. */
  lemma WorkKeeps(e: Exchange, act: Act, time: nat)
    requires ExchangeInv(e, time) && CanWork(e, act)
    ensures ExchangeInv(Work(e, act, time), time + 1)
  {
    match act
    case SendNext(ok) => SendKeeps(e, ok, time);
    case SendFailure(ok) => FailureKeeps(e, ok, time);
    case HandlerReturns(chunks) => ScriptShape(chunks);
    case _ =>
  }

  /** One exchange changes, the rest of the state hardly: what has to be shown of it. */
  lemma PutKeeps(s: State, s': State, id: string)
    requires Inv(s) && id in s'.exchanges && s'.time == s.time + 1
    requires forall k :: k in s'.exchanges <==> k in s.exchanges || k == id
    requires forall k | k in s.exchanges && k != id ::
        s'.exchanges[k] == s.exchanges[k] && (Booked(s, k) ==> Booked(s', k))
    requires ExchangeInv(s'.exchanges[id], s'.time) && Booked(s', id)
    requires s'.pending <= s'.exchanges.Keys && s'.swapped <= s'.exchanges.Keys
    requires s'.reader.Found? || s'.reader.Erases? ==> s'.reader.id in s'.exchanges
    requires s'.reader.Found? && !s'.reader.cancel ==> !s'.exchanges[s'.reader.id].ended
    requires s'.reader.Erases? ==> s'.exchanges[s'.reader.id].cancelledAt.Some? || s'.exchanges[s'.reader.id].websocket
    requires forall k | k in s'.stuck ::
        k in s'.exchanges && s'.exchanges[k].cancelledAt.Some? && s'.exchanges[k].websocket
    ensures Inv(s')
  {
    forall k | k in s'.exchanges
      ensures ExchangeInv(s'.exchanges[k], s'.time) && Booked(s', k)
    {
      if k != id {
        TimePasses(s.exchanges[k], s.time);
      }
    }
  }

  lemma WorksKeeps(s: State, id: string, act: Act)
    requires Inv(s) && Enabled(s, Works(id, act))
    ensures Inv(Apply(s, Works(id, act)))
  {
    hide ExchangeInv, Booked, Work;
    WorkKeeps(s.exchanges[id], act, s.time);
    var e := Work(s.exchanges[id], act, s.time);
    WorkBooked(s, id, act);
    PutKeeps(s, Put(s, id, e).(time := s.time + 1), id);
  }

  /** The thread touches neither the flag nor the books, and only returns early when cancelled. */
  lemma WorkFields(e: Exchange, act: Act, time: nat)
    requires CanWork(e, act)
    ensures var e' := Work(e, act, time);
            && e'.websocket == e.websocket && e'.ended == e.ended && e'.cancelledAt == e.cancelledAt
            && e'.completed == e.completed
            && e.worker != Finished && e.worker != NotSpawned && (e'.worker == Finished ==> e.cancelledAt.Some?)
  {
  }

  lemma WorkBooked(s: State, id: string, act: Act)
    requires Inv(s) && Enabled(s, Works(id, act))
    ensures var s' := Put(s, id, Work(s.exchanges[id], act, s.time)).(time := s.time + 1);
            Booked(s', id) && forall k | k in s.exchanges && k != id :: Booked(s', k)
    ensures Work(s.exchanges[id], act, s.time).websocket == s.exchanges[id].websocket
    ensures Work(s.exchanges[id], act, s.time).ended == s.exchanges[id].ended
    ensures Work(s.exchanges[id], act, s.time).cancelledAt == s.exchanges[id].cancelledAt
  {
    hide Work, CanWork;
    assert ExchangeInv(s.exchanges[id], s.time) && Booked(s, id);
    WorkFields(s.exchanges[id], act, s.time);
  }

  lemma TakeKeeps(e: Exchange, data: string, end: bool, time: nat)
    requires ExchangeInv(e, time) && !e.ended && !e.websocket
    ensures ExchangeInv(Take(e, data, end), time + 1)
  {
    JoinEnd(e.received, data);
  }

  lemma ActKeeps(s: State, closed: bool)
    requires Inv(s) && Enabled(s, Act(closed))
    ensures Inv(Apply(s, Act(closed)))
  {
    var id, e := s.reader.id, s.exchanges[s.reader.id];
    if s.reader.cancel {
      ActCancels(s, closed);
    } else {
      ActTakes(s, closed);
    }
  }

  lemma ActCancels(s: State, closed: bool)
    requires Inv(s) && Enabled(s, Act(closed)) && s.reader.cancel
    ensures Inv(Apply(s, Act(closed)))
  {
    hide ExchangeInv;
    var id, e := s.reader.id, s.exchanges[s.reader.id];
    CancelKeeps(e, s.time);
    PutKeeps(s, Apply(s, Act(closed)), id);
  }

  lemma ActTakes(s: State, closed: bool)
    requires Inv(s) && Enabled(s, Act(closed)) && !s.reader.cancel
    ensures Inv(Apply(s, Act(closed)))
  {
    hide ExchangeInv;
    var id, e := s.reader.id, s.exchanges[s.reader.id];
    TimePasses(e, s.time);
    if !e.websocket {
      TakeKeeps(e, s.reader.data, s.reader.end, s.time);
      NotTaken(e, s.time);
    }
    PutKeeps(s, Apply(s, Act(closed)), id);
  }

  /** Before its request has ended an exchange has no thread. */
  lemma NotTaken(e: Exchange, time: nat)
    requires ExchangeInv(e, time) && !e.ended
    ensures e.worker == NotSpawned
  {
  }

  lemma DoneKeeps(e: Exchange, time: nat)
    requires ExchangeInv(e, time) && e.worker == Erasing
    ensures ExchangeInv(e.(worker := Finished, completed := true), time + 1)
  {
    hide GoodOutput, Script, Join;
  }

  lemma WorkerErasesKeeps(s: State, id: string)
    requires Inv(s) && Enabled(s, WorkerErases(id))
    ensures Inv(Apply(s, WorkerErases(id)))
  {
    hide ExchangeInv;
    DoneKeeps(s.exchanges[id], s.time);
    PutKeeps(s, Apply(s, WorkerErases(id)), id);
  }

  lemma CompletedKeeps(e: Exchange, time: nat)
    requires ExchangeInv(e, time) && e.websocket
    ensures ExchangeInv(e.(completed := true), time + 1)
  {
  }

  lemma ReaderErasesKeeps(s: State)
    requires Inv(s) && Enabled(s, ReaderErases)
    ensures Inv(Apply(s, ReaderErases))
  {
    hide ExchangeInv;
    var e := s.exchanges[s.reader.id];
    TimePasses(e, s.time);
    if e.websocket {
      CompletedKeeps(e, s.time);
    }
    PutKeeps(s, Apply(s, ReaderErases), s.reader.id);
  }

  lemma CancelOneKeeps(s: State, id: string)
    requires Inv(s) && Enabled(s, CancelOne(id))
    ensures Inv(Apply(s, CancelOne(id)))
  {
    hide ExchangeInv;
    CancelKeeps(s.exchanges[id], s.time);
    PutKeeps(s, Apply(s, CancelOne(id)), id);
  }

  lemma StepKeepsInv(s: State, step: Step)
    requires Inv(s) && Enabled(s, step)
    ensures Inv(Apply(s, step))
  {
    hide Apply, Enabled, Inv;
    match step
    case StartRequest(id, websocket, accepted) => StartKeeps(s, id, websocket, accepted);
    case LookUp(id, data, cancel, end) => LookUpKeeps(s, step);
    case Act(closed) => ActKeeps(s, closed);
    case ReaderErases => ReaderErasesKeeps(s);
    case Works(id, act) => WorksKeeps(s, id, act);
    case WorkerErases(id) => WorkerErasesKeeps(s, id);
    case SwapOut => SwapKeeps(s);
    case CancelOne(id) => CancelOneKeeps(s, id);
  }

  lemma StartKeeps(s: State, id: string, websocket: bool, accepted: bool)
    requires Inv(s) && Enabled(s, StartRequest(id, websocket, accepted))
    ensures Inv(Apply(s, StartRequest(id, websocket, accepted)))
  {
    var s' := Apply(s, StartRequest(id, websocket, accepted));
    if websocket && !accepted {
      AllPass(s, s');
    } else {
      assert id !in s.swapped && id !in s.pending;
      PutKeeps(s, s', id);
    }
  }

  lemma LookUpKeeps(s: State, step: Step)
    requires Inv(s) && step.LookUp? && Enabled(s, step)
    ensures Inv(Apply(s, step))
  {
    AllPass(s, Apply(s, step));
  }

  lemma SwapKeeps(s: State)
    requires Inv(s) && Enabled(s, SwapOut)
    ensures Inv(Apply(s, SwapOut))
  {
    AllPass(s, Apply(s, SwapOut));
  }

  lemma AllPass(s: State, s': State)
    requires Inv(s) && s'.exchanges == s.exchanges && s'.time == s.time + 1
    ensures forall id | id in s'.exchanges :: ExchangeInv(s'.exchanges[id], s'.time)
  {
    forall id | id in s'.exchanges
      ensures ExchangeInv(s'.exchanges[id], s'.time)
    {
      TimePasses(s.exchanges[id], s.time);
    }
  }

  // ----------------------------------------------------------- whole runs

  function Next(s: State, step: Step): Option<State> {
    if Enabled(s, step) then Some(Apply(s, step)) else None
  }

  lemma RunKeepsInv(s: State, steps: seq<Step>, end: State)
    requires Inv(s) && Run(Next, s, steps, end)
    ensures Inv(end)
  {
    forall a: State, step: Step | Inv(a) && Next(a, step).Some?
      ensures Inv(Next(a, step).value)
    {
      StepKeepsInv(a, step);
    }
    RunKeeps(Next, Inv, s, steps, end);
  }

  // ------------------------------------------------------- frames in order

  lemma NextFrame(chunks: seq<string>, i: nat)
    requires i < |chunks|
    ensures |Script(chunks)| == |chunks| + 1
    ensures Script(chunks)[i + 1] == Chunk(chunks[i], i + 1 == |chunks|)
    ensures Script(chunks)[..i + 2] == Script(chunks)[..i + 1] + [Chunk(chunks[i], i + 1 == |chunks|)]
  {
    ChunkFramesShape(chunks);
    assert Script(chunks)[i + 1] == ChunkFrames(chunks)[i];
  }

  lemma FirstFrames(chunks: seq<string>)
    ensures |Script(chunks)| == (if |chunks| == 0 then 2 else |chunks| + 1) && Script(chunks)[0] == Start
    ensures |chunks| == 0 ==> Script(chunks) == [Start] + [Chunk("", true)]
  {
    ChunkFramesShape(chunks);
  }

  // ------------------------------------------------------------ the bridge

  datatype Role = ReadThread | Canceller | HttpThread(id: string)

  /** The steps that only this role takes. */
  predicate Belongs(step: Step, who: Role) {
    match step
    case StartRequest(_, _, _) => who.ReadThread?
    case LookUp(_, _, _, _) => who.ReadThread?
    case Act(_) => who.ReadThread?
    case ReaderErases => who.ReadThread?
    case SwapOut => who.Canceller?
    case CancelOne(_) => who.Canceller?
    case Works(id, _) => who == HttpThread(id)
    case WorkerErases(id) => who == HttpThread(id)
  }

  predicate Others(steps: seq<Step>, who: Role) {
    forall i | 0 <= i < |steps| :: !Belongs(steps[i], who)
  }

  /** The steps of this role, in order: what its code did in the run. */
  function Mine(steps: seq<Step>, who: Role): seq<Step> {
    if |steps| == 0 then []
    else if Belongs(steps[|steps| - 1], who) then Mine(steps[..|steps| - 1], who) + [steps[|steps| - 1]]
    else Mine(steps[..|steps| - 1], who)
  }

  lemma MineNext(steps: seq<Step>, step: Step, who: Role)
    ensures Mine(steps + [step], who) == if Belongs(step, who) then Mine(steps, who) + [step] else Mine(steps, who)
  {
    assert (steps + [step])[..|steps|] == steps;
  }

  lemma {:induction false} MineAndOthers(steps: seq<Step>, others: seq<Step>, who: Role)
    requires Others(others, who)
    ensures Mine(steps + others, who) == Mine(steps, who)
  {
    if |others| == 0 {
      Unit(steps);
    } else {
      var n := |others| - 1;
      MineAndOthers(steps, others[..n], who);
      MineNext(steps + others[..n], others[n], who);
      assert steps + others == (steps + others[..n]) + [others[n]];
    }
  }

  /** Nothing about the exchange has changed, except that it may have been cancelled. */
  predicate SameButCancelled(e: Exchange, e': Exchange) {
    e'.(cancelledAt := e.cancelledAt) == e && (e.cancelledAt.Some? ==> e' == e)
  }

  /** A websocket is one for good, and cancelled is cancelled. */
  predicate Stays(e: Exchange, e': Exchange) {
    e'.websocket == e.websocket && (e.cancelledAt.Some? ==> e'.cancelledAt.Some?)
  }

  /** What the others leave to its owner. */
  predicate Left(s: State, next: State, who: Role) {
    && s.exchanges.Keys <= next.exchanges.Keys
    && (forall id | id in s.exchanges :: Stays(s.exchanges[id], next.exchanges[id]))
    && (who.ReadThread? ==> next.reader == s.reader)
    && (who.Canceller? ==> next.swapped == s.swapped)
    && (who.HttpThread? && who.id in s.exchanges && s.exchanges[who.id].worker != NotSpawned ==>
          SameButCancelled(s.exchanges[who.id], next.exchanges[who.id]))
  }

  /** Once the thread of an exchange runs, the read thread can only cancel it. */
  lemma ReaderOnlyCancels(s: State, id: string)
    requires Inv(s) && id in s.exchanges && s.exchanges[id].worker != NotSpawned
    ensures s.reader.Found? && s.reader.id == id ==> s.reader.cancel
    ensures s.reader.Erases? && s.reader.id == id ==> s.exchanges[id].cancelledAt.Some?
  {
    assert ExchangeInv(s.exchanges[id], s.time);
  }

  lemma StepStays(s: State, step: Step, id: string)
    requires Enabled(s, step) && id in s.exchanges
    ensures id in Apply(s, step).exchanges && Stays(s.exchanges[id], Apply(s, step).exchanges[id])
  {
    hide Work, CanWork;
    if step.Works? {
      WorkFields(s.exchanges[step.id], step.act, s.time);
    }
  }

  lemma StepLeavesPlaces(s: State, step: Step, who: Role)
    requires Enabled(s, step) && !Belongs(step, who)
    ensures s.exchanges.Keys <= Apply(s, step).exchanges.Keys
    ensures who.ReadThread? ==> Apply(s, step).reader == s.reader
    ensures who.Canceller? ==> Apply(s, step).swapped == s.swapped
  {
    hide Work, CanWork, Cancel, Take;
  }

  lemma StepLeavesExchange(s: State, step: Step, id: string)
    requires Inv(s) && Enabled(s, step) && !Belongs(step, HttpThread(id))
    requires id in s.exchanges && s.exchanges[id].worker != NotSpawned
    ensures id in Apply(s, step).exchanges && SameButCancelled(s.exchanges[id], Apply(s, step).exchanges[id])
  {
    hide Inv, Work, CanWork, Take;
    ReaderOnlyCancels(s, id);
  }

  lemma StepLeaves(s: State, step: Step, who: Role)
    requires Inv(s) && Enabled(s, step) && !Belongs(step, who)
    ensures Left(s, Apply(s, step), who)
  {
    hide Inv, Apply, Enabled, Belongs, Stays, SameButCancelled;
    StepLeavesPlaces(s, step, who);
    forall id | id in s.exchanges
      ensures id in Apply(s, step).exchanges && Stays(s.exchanges[id], Apply(s, step).exchanges[id])
    {
      StepStays(s, step, id);
    }
    if who.HttpThread? && who.id in s.exchanges && s.exchanges[who.id].worker != NotSpawned {
      StepLeavesExchange(s, step, who.id);
    }
  }

  lemma LeftOn(s: State, mid: State, end: State, who: Role)
    requires Left(s, mid, who) && Left(mid, end, who)
    ensures Left(s, end, who)
  {
  }

  lemma {:induction false} OthersLeave(s: State, steps: seq<Step>, end: State, who: Role)
    requires Inv(s) && Run(Next, s, steps, end) && Others(steps, who)
    ensures Left(s, end, who)
    decreases |steps|
  {
    hide Apply, Enabled, Inv, SameButCancelled;
    if |steps| == 0 {
      NothingLeft(s, who);
    } else {
      StepLeaves(s, steps[0], who);
      StepKeepsInv(s, steps[0]);
      OthersLeave(Apply(s, steps[0]), steps[1..], end, who);
      LeftOn(s, Apply(s, steps[0]), end, who);
    }
  }

  lemma NothingLeft(s: State, who: Role)
    ensures Left(s, s, who)
  {
  }

  /** Where the thread of an exchange is, and what it has sent of what. */
  predicate Doing(s: State, id: string, worker: Worker, script: seq<Frame>, acked: seq<Frame>) {
    && id in s.exchanges
    && s.exchanges[id].worker == worker && s.exchanges[id].script == script && s.exchanges[id].acked == acked
  }

  lemma StillDoing(s: State, next: State, id: string, worker: Worker, script: seq<Frame>, acked: seq<Frame>)
    requires Doing(s, id, worker, script, acked) && worker != NotSpawned && Left(s, next, HttpThread(id))
    ensures Doing(next, id, worker, script, acked)
  {
  }

  /** The acknowledged frames of a thread that is sending are a prefix of its script. */
  lemma SendingPrefix(s: State, id: string, script: seq<Frame>, acked: seq<Frame>)
    requires Inv(s) && Doing(s, id, Sending, script, acked)
    ensures acked < script
  {
    assert ExchangeInv(s.exchanges[id], s.time);
  }

  lemma NothingYet(s: State, id: string)
    requires Inv(s) && id in s.exchanges && s.exchanges[id].worker == FirstCheck
    ensures Doing(s, id, FirstCheck, [], [])
  {
    assert ExchangeInv(s.exchanges[id], s.time);
  }

  /** Where a look at the flag leads. */
  function AfterLook(act: Act, cancelled: bool): Worker {
    match act
    case CheckFirst => if cancelled then Finished else Handling
    case CheckSecond => if cancelled then Finished else Sending
    case _ => if cancelled then Erasing else SendingFailure
  }

  /** `exchanges` has the objects, `pending` the keys of the map that still refer to them. */
  class Bridge {
    var pending: set<string>
    var exchanges: map<string, Exchange>
    var time: nat
    ghost var reader: Reader
    ghost var swapped: set<string>
    ghost var stuck: set<string>

    ghost function Model(): State
      reads this
    {
      State(time, exchanges, pending, reader, swapped, stuck)
    }

    constructor ()
      ensures Model() == INIT
    {
      pending, exchanges, time, reader, swapped, stuck := {}, map[], 0, Idle, {}, {};
    }

    /** What everybody else does while the lock is free; callers know no more than the contract. */
    method Interfere(ghost who: Role) returns (ghost steps: seq<Step>)
      requires Inv(Model())
      modifies this
      ensures Run(Next, old(Model()), steps, Model()) && Others(steps, who)
    {
      steps := [];
    }

    method Pause(ghost who: Role, ghost before: State, ghost steps: seq<Step>) returns (ghost longer: seq<Step>)
      requires Inv(before) && Run(Next, before, steps, Model())
      modifies this
      ensures Run(Next, before, longer, Model()) && Inv(Model()) && Left(old(Model()), Model(), who)
      ensures Mine(longer, who) == Mine(steps, who)
    {
      hide Apply, Enabled, Inv, Run, Left;
      ghost var mid := Model();
      RunKeepsInv(before, steps, mid);
      ghost var others := Interfere(who);
      RunOn(Next, before, steps, mid, others, Model());
      OthersLeave(mid, others, Model(), who);
      longer := steps + others;
      MineAndOthers(steps, others, who);
      RunKeepsInv(before, longer, Model());
    }

    /** handle, for the start of a request: a websocket may be turned down, or fail to open. */
    method HandleStart(id: string, websocket: bool) returns (accepted: bool)
      requires Enabled(Model(), StartRequest(id, websocket, true))
      modifies `exchanges, `pending, `time
      ensures Model() == Apply(old(Model()), StartRequest(id, websocket, accepted))
      ensures !websocket ==> accepted
    {
      accepted := true;
      if websocket {
        accepted := *;
      }
      if accepted {
        exchanges := exchanges[id := NewExchange(websocket)];
        pending := pending + {id};
      }
      time := time + 1;
    }

    method Find(id: string, data: string, cancel: bool, end: bool) returns (found: bool)
      requires Enabled(Model(), LookUp(id, data, cancel, end))
      modifies `time, `reader
      ensures Model() == Apply(old(Model()), LookUp(id, data, cancel, end))
      ensures found <==> id in old(pending)
      ensures reader == if found then Found(id, data, cancel, end) else Idle
    {
      found := id in pending;
      if found {
        reader := Found(id, data, cancel, end);
      }
      time := time + 1;
    }

    method CancelFound(id: string) returns (closed: bool)
      requires reader.Found? && reader.id == id && reader.cancel && id in exchanges
      modifies `exchanges, `time, `reader, `stuck
      ensures Enabled(old(Model()), Act(closed)) && Model() == Apply(old(Model()), Act(closed))
      ensures reader == if closed then Erases(id) else Idle
    {
      var e := exchanges[id];
      exchanges := exchanges[id := Cancel(e, time)];
      closed := true;
      if e.websocket {
        closed := *;
      }
      reader, stuck := if closed then Erases(id) else Idle, if closed then stuck else stuck + {id};
      time := time + 1;
    }

    method Deliver(id: string, data: string, end: bool) returns (erase: bool, ghost closed: bool)
      requires reader == Found(id, data, false, end) && id in exchanges
      modifies `exchanges, `time, `reader
      ensures Enabled(old(Model()), Act(closed)) && Model() == Apply(old(Model()), Act(closed))
      ensures erase <==> end && closed && old(exchanges)[id].websocket
      ensures reader == if erase then Erases(id) else Idle
      ensures id in exchanges && exchanges[id].websocket == old(exchanges)[id].websocket
    {
      var e := exchanges[id];
      erase, closed := false, true;
      if e.websocket {
        var returned: bool := *;
        closed := returned;
        erase := end && returned;
        reader := if erase then Erases(id) else Idle;
      } else {
        e := e.(received := e.received + [data], body := e.body + data);
        if end {
          e := e.(ended := true, worker := FirstCheck);
        }
        exchanges := exchanges[id := e];
        reader := Idle;
      }
      time := time + 1;
    }

    method Erase(id: string)
      requires reader == Erases(id) && id in exchanges
      modifies `exchanges, `pending, `time, `reader
      ensures Model() == Apply(old(Model()), ReaderErases) && reader.Idle?
    {
      pending := pending - {id};
      var e := exchanges[id];
      exchanges := exchanges[id := if e.cancelledAt.Some? then e else e.(completed := true)];
      reader := Idle;
      time := time + 1;
    }

    /**
      handle, for a request chunk: two critical sections, and the exchange itself in
      between. `closed` says whether what is called there returned.
     */
    method HandleChunk(id: string, data: string, cancel: bool, end: bool)
      returns (erased: bool, ghost steps: seq<Step>, ghost closed: bool)
      requires Inv(Model()) && Enabled(Model(), LookUp(id, data, cancel, end))
      modifies this
      ensures Run(Next, old(Model()), steps, Model()) && Inv(Model()) && reader.Idle?
      ensures Mine(steps, ReadThread) ==
              [LookUp(id, data, cancel, end)] + ChunkSteps(id in old(pending), closed, erased)
      ensures id in old(pending) ==>
                id in old(exchanges) && (erased <==> closed && (cancel || (end && old(exchanges)[id].websocket)))
    {
      hide Apply, Inv, Run, Left;
      ghost var before := Model();
      RunNothing(Next, before);
      FoundExists(before);
      erased, closed := false, true;
      var found := Find(id, data, cancel, end);
      steps := RunFurther(Next, before, [], before, LookUp(id, data, cancel, end), Model());
      RunKeepsInv(before, steps, Model());
      MineNext([], LookUp(id, data, cancel, end), ReadThread);
      Unit([LookUp(id, data, cancel, end)]);
      if found {
        FoundExists(Model());
        erased, steps, closed := ActOnFound(id, data, cancel, end, before, steps);
        if erased {
          Assoc([LookUp(id, data, cancel, end)], [Act(closed)], [ReaderErases]);
          assert [Act(closed)] + [ReaderErases] == [Act(closed), ReaderErases];
          steps := EraseFound(id, before, steps);
        }
      }
    }

    method ActOnFound(id: string, data: string, cancel: bool, end: bool, ghost before: State, ghost steps: seq<Step>)
      returns (erase: bool, ghost longer: seq<Step>, ghost closed: bool)
      requires Inv(before) && Run(Next, before, steps, Model()) && Inv(Model())
      requires reader == Found(id, data, cancel, end) && id in exchanges
      modifies this
      ensures Run(Next, before, longer, Model()) && Inv(Model())
      ensures Mine(longer, ReadThread) == Mine(steps, ReadThread) + [Act(closed)]
      ensures erase <==> closed && (cancel || (end && old(exchanges)[id].websocket))
      ensures reader == if erase then Erases(id) else Idle
    {
      hide Apply, Inv, Run;
      longer := Pause(ReadThread, before, steps);
      ghost var mid := Model();
      if cancel {
        erase := CancelFound(id);
        closed := erase;
      } else {
        erase, closed := Deliver(id, data, end);
      }
      MineNext(longer, Act(closed), ReadThread);
      longer := RunFurther(Next, before, longer, mid, Act(closed), Model());
      RunKeepsInv(before, longer, Model());
    }

    method EraseFound(id: string, ghost before: State, ghost steps: seq<Step>) returns (ghost longer: seq<Step>)
      requires Inv(before) && Run(Next, before, steps, Model()) && Inv(Model()) && reader == Erases(id)
      modifies this
      ensures Run(Next, before, longer, Model()) && Inv(Model()) && reader.Idle?
      ensures Mine(longer, ReadThread) == Mine(steps, ReadThread) + [ReaderErases]
    {
      hide Apply, Inv, Run;
      longer := Pause(ReadThread, before, steps);
      ghost var mid := Model();
      FoundExists(mid);
      Erase(id);
      MineNext(longer, ReaderErases, ReadThread);
      longer := RunFurther(Next, before, longer, mid, ReaderErases, Model());
      RunKeepsInv(before, longer, Model());
    }

    method Swap() returns (taken: set<string>)
      requires swapped == {}
      modifies `pending, `swapped, `time
      ensures Model() == Apply(old(Model()), SwapOut) && swapped == taken == old(pending)
    {
      taken, pending := pending, {};
      swapped := taken;
      time := time + 1;
    }

    method Raise(id: string)
      requires id in swapped && id in exchanges
      modifies `exchanges, `swapped, `time
      ensures Model() == Apply(old(Model()), CancelOne(id)) && swapped == old(swapped) - {id}
      ensures exchanges == old(exchanges)[id := exchanges[id]] && exchanges[id].cancelledAt.Some?
    {
      exchanges := exchanges[id := Cancel(exchanges[id], time)];
      swapped := swapped - {id};
      time := time + 1;
    }

    /** One round of the loop in cancel_all, after others had their time. */
    method RaiseOne(left: set<string>, ghost before: State, ghost steps: seq<Step>)
      returns (id: string, ghost longer: seq<Step>)
      requires Inv(before) && Run(Next, before, steps, Model()) && Inv(Model()) && swapped == left != {}
      modifies this
      ensures Run(Next, before, longer, Model()) && Inv(Model()) && id in left && swapped == left - {id}
      ensures Mine(longer, Canceller) == Mine(steps, Canceller) + [CancelOne(id)]
      ensures AllCancelled(Model(), {id})
      ensures forall ids | AllCancelled(old(Model()), ids) :: AllCancelled(Model(), ids)
    {
      hide Apply, Inv, Run, Left, AllCancelled;
      ghost var was := Model();
      longer := Pause(Canceller, before, steps);
      ghost var mid := Model();
      SwappedStay(was, mid);
      StillCancelled(was, mid, Canceller);
      id :| id in left;
      Raise(id);
      RaisedToo(mid, Model(), id);
      MineNext(longer, CancelOne(id), Canceller);
      longer := RunFurther(Next, before, longer, mid, CancelOne(id), Model());
      RunKeepsInv(before, longer, Model());
    }

    /** cancel_all: take the whole map, then raise the flags one by one, in some order. */
    method CancelAll() returns (ghost steps: seq<Step>, ghost order: seq<string>)
      requires Inv(Model()) && swapped == {}
      modifies this
      ensures Run(Next, old(Model()), steps, Model()) && Inv(Model()) && swapped == {}
      ensures Mine(steps, Canceller) == [SwapOut] + CancelSteps(order)
      ensures |order| == |old(pending)| && forall id :: id in order <==> id in old(pending)
      ensures AllCancelled(Model(), old(pending))
    {
      hide Apply, Inv, Run, AllCancelled, Mine, CancelSteps;
      ghost var before := Model();
      RunNothing(Next, before);
      NoSteps();
      var left := Swap();
      ghost var all := left;
      steps := RunFurther(Next, before, [], before, SwapOut, Model());
      RunKeepsInv(before, steps, Model());
      MineNext([], SwapOut, Canceller);
      order := [];
      Unit([SwapOut]);
      NoneCancelled(Model());
      while left != {}
        invariant left <= all && Run(Next, before, steps, Model()) && Inv(Model()) && swapped == left
        invariant Mine(steps, Canceller) == [SwapOut] + CancelSteps(order)
        invariant |order| == |all| - |left| && forall id :: id in order <==> id in all && id !in left
        invariant AllCancelled(Model(), all - left)
        decreases left
      {
        var id;
        id, steps := RaiseOne(left, before, steps);
        OneMoreCancelled(Model(), all - left, id);
        OneLess(all, left, id);
        CancelStepsNext(order, id);
        Assoc([SwapOut], CancelSteps(order), [CancelOne(id)]);
        order := order + [id];
        left := left - {id};
      }
      assert all - {} == all;
    }

    // The thread of an HTTP exchange. What it has sent, and where it is, is kept in its exchange.

    method IsCancelled(id: string, act: Act) returns (c: bool)
      requires id in exchanges && CanWork(exchanges[id], act)
      requires act.CheckFirst? || act.CheckSecond? || act.CheckFailure?
      modifies `exchanges, `time
      ensures Model() == Apply(old(Model()), Works(id, act)) && c == old(exchanges)[id].cancelledAt.Some?
      ensures Doing(Model(), id, AfterLook(act, c), old(exchanges)[id].script, old(exchanges)[id].acked)
      ensures exchanges[id].cancelledAt == old(exchanges)[id].cancelledAt
    {
      c := exchanges[id].cancelledAt.Some?;
      exchanges := exchanges[id := Work(exchanges[id], act, time)];
      time := time + 1;
    }

    /** The user's handler: what it does is `handled`. */
    method RunHandler(id: string, handled: Handled)
      requires Doing(Model(), id, Handling, [], [])
      modifies `exchanges, `time
      ensures Model() == Apply(old(Model()), Works(id, HandlerAct(handled)))
      ensures Doing(Model(), id, if handled.Threw? then Failing else SecondCheck, ScriptOf(handled), [])
    {
      exchanges := exchanges[id := Work(exchanges[id], HandlerAct(handled), time)];
      time := time + 1;
    }

    /** A frame is acknowledged, or sending it throws. */
    method Send(id: string, frame: Frame) returns (ok: bool)
      requires id in exchanges && exchanges[id].worker == Sending && exchanges[id].acked < exchanges[id].script
      requires frame == exchanges[id].script[|exchanges[id].acked|]
      modifies `exchanges, `time
      ensures Model() == Apply(old(Model()), Works(id, SendNext(ok)))
      ensures var script, acked := old(exchanges)[id].script, old(exchanges)[id].acked;
              && (!ok ==> Doing(Model(), id, Failing, script, acked))
              && (ok ==> Doing(Model(), id, AfterSend(|acked| + 1, |script|), script, acked + [frame]))
    {
      ok := *;
      exchanges := exchanges[id := Work(exchanges[id], SendNext(ok), time)];
      time := time + 1;
    }

    /** The frame of fail(), whose own failure is swallowed. */
    method Fail(id: string) returns (ok: bool)
      requires id in exchanges && exchanges[id].worker == SendingFailure
      modifies `exchanges, `time
      ensures Model() == Apply(old(Model()), Works(id, SendFailure(ok)))
      ensures id in exchanges && exchanges[id].worker == Erasing && exchanges[id].script == old(exchanges)[id].script
    {
      ok := *;
      exchanges := exchanges[id := Work(exchanges[id], SendFailure(ok), time)];
      time := time + 1;
    }

    method EraseOwn(id: string)
      requires At(Model(), id, Erasing)
      modifies `exchanges, `pending, `time
      ensures Model() == Apply(old(Model()), WorkerErases(id))
      ensures id in exchanges && exchanges[id].worker == Finished && exchanges[id].script == old(exchanges)[id].script
    {
      pending := pending - {id};
      exchanges := exchanges[id := exchanges[id].(worker := Finished, completed := true)];
      time := time + 1;
    }

    /** One frame, and then others for a while. */
    method SendOne(id: string, frame: Frame, script: seq<Frame>, n: nat, ghost before: State, ghost steps: seq<Step>)
      returns (ok: bool, ghost longer: seq<Step>)
      requires Inv(before) && Run(Next, before, steps, Model()) && Inv(Model())
      requires n < |script| && script[n] == frame && Doing(Model(), id, Sending, script, script[..n])
      modifies this
      ensures Run(Next, before, longer, Model()) && Inv(Model())
      ensures !ok ==> Doing(Model(), id, Failing, script, script[..n])
      ensures ok ==> Doing(Model(), id, AfterSend(n + 1, |script|), script, script[..n + 1])
    {
      hide Apply, Inv, Run, Left;
      ghost var mid := Model();
      SendingPrefix(mid, id, script, script[..n]);
      ok := Send(id, frame);
      assert script[..n + 1] == script[..n] + [frame];
      longer := RunFurther(Next, before, steps, mid, Works(id, SendNext(ok)), Model());
      RunKeepsInv(before, longer, Model());
      mid := Model();
      longer := Pause(HttpThread(id), before, longer);
      if ok {
        StillDoing(mid, Model(), id, AfterSend(n + 1, |script|), script, script[..n + 1]);
      } else {
        StillDoing(mid, Model(), id, Failing, script, script[..n]);
      }
    }

    /** The start frame and the chunks, in order, up to the first that throws. */
    method SendResponse(id: string, chunks: seq<string>, ghost before: State, ghost steps: seq<Step>)
      returns (ok: bool, ghost longer: seq<Step>)
      requires Inv(before) && Run(Next, before, steps, Model()) && Inv(Model())
      requires Doing(Model(), id, Sending, Script(chunks), [])
      modifies this
      ensures Run(Next, before, longer, Model()) && Inv(Model())
      ensures id in exchanges && exchanges[id].script == Script(chunks)
      ensures exchanges[id].worker == if ok then Erasing else Failing
      ensures ok ==> exchanges[id].acked == Script(chunks)
    {
      hide Inv, Run, Script;
      FirstFrames(chunks);
      assert Script(chunks)[..0] == [];
      ok, longer := SendOne(id, Start, Script(chunks), 0, before, steps);
      if !ok {
        return;
      }
      if |chunks| == 0 {
        assert Script(chunks)[..2] == Script(chunks);
        ok, longer := SendOne(id, Chunk("", true), Script(chunks), 1, before, longer);
        return;
      }
      for i := 0 to |chunks|
        invariant |Script(chunks)| == |chunks| + 1
        invariant Run(Next, before, longer, Model()) && Inv(Model())
        invariant Doing(Model(), id, AfterSend(i + 1, |chunks| + 1), Script(chunks), Script(chunks)[..i + 1])
      {
        NextFrame(chunks, i);
        ok, longer := SendOne(id, Chunk(chunks[i], i + 1 == |chunks|), Script(chunks), i + 1, before, longer);
        if !ok {
          return;
        }
      }
      assert Script(chunks)[..|chunks| + 1] == Script(chunks);
      ok := true;
    }

    /** A look at the flag, after others had their time. */
    method LookAgain(id: string, act: Act, script: seq<Frame>, acked: seq<Frame>,
                     ghost before: State, ghost steps: seq<Step>)
      returns (c: bool, ghost longer: seq<Step>)
      requires Inv(before) && Run(Next, before, steps, Model()) && Inv(Model())
      requires act.CheckFirst? || act.CheckSecond? || act.CheckFailure?
      requires Doing(Model(), id, BeforeLook(act), script, acked)
      modifies this
      ensures Run(Next, before, longer, Model()) && Inv(Model()) && Doing(Model(), id, AfterLook(act, c), script, acked)
      ensures c ==> exchanges[id].cancelledAt.Some?
    {
      hide Apply, Inv, Run, Left;
      ghost var mid := Model();
      longer := Pause(HttpThread(id), before, steps);
      StillDoing(mid, Model(), id, BeforeLook(act), script, acked);
      mid := Model();
      c := IsCancelled(id, act);
      longer := RunFurther(Next, before, longer, mid, Works(id, act), Model());
      RunKeepsInv(before, longer, Model());
    }

    method HandlerPhase(id: string, handled: Handled, ghost before: State, ghost steps: seq<Step>)
      returns (ghost longer: seq<Step>)
      requires Inv(before) && Run(Next, before, steps, Model()) && Inv(Model()) && Doing(Model(), id, Handling, [], [])
      modifies this
      ensures Run(Next, before, longer, Model()) && Inv(Model())
      ensures Doing(Model(), id, if handled.Threw? then Failing else SecondCheck, ScriptOf(handled), [])
    {
      hide Apply, Inv, Run, Left, Doing, Script;
      ghost var mid := Model();
      longer := Pause(HttpThread(id), before, steps);
      StillDoing(mid, Model(), id, Handling, [], []);
      mid := Model();
      RunHandler(id, handled);
      HandlerMayAct(mid, id, handled);
      longer := RunFurther(Next, before, longer, mid, Works(id, HandlerAct(handled)), Model());
      RunKeepsInv(before, longer, Model());
    }

    /** The second look, and the response if it is still wanted. */
    method Respond(id: string, chunks: seq<string>, ghost before: State, ghost steps: seq<Step>)
      returns (cancelled: bool, ok: bool, ghost longer: seq<Step>)
      requires Inv(before) && Run(Next, before, steps, Model()) && Inv(Model())
      requires Doing(Model(), id, SecondCheck, Script(chunks), [])
      modifies this
      ensures Run(Next, before, longer, Model()) && Inv(Model())
      ensures At(Model(), id, if cancelled then Finished else if ok then Erasing else Failing)
      ensures exchanges[id].script == Script(chunks)
      ensures cancelled ==> exchanges[id].cancelledAt.Some? && exchanges[id].acked == []
    {
      hide Apply, Inv, Run, Left, Doing, Script;
      ok := false;
      cancelled, longer := LookAgain(id, CheckSecond, Script(chunks), [], before, steps);
      DoingMeans(Model(), id, AfterLook(CheckSecond, cancelled), Script(chunks), []);
      if !cancelled {
        ok, longer := SendResponse(id, chunks, before, longer);
      }
    }

    /** The end of complete_http: erase the entry. */
    method EraseLater(id: string, ghost before: State, ghost steps: seq<Step>) returns (ghost longer: seq<Step>)
      requires Inv(before) && Run(Next, before, steps, Model()) && Inv(Model()) && At(Model(), id, Erasing)
      modifies this
      ensures Run(Next, before, longer, Model()) && Inv(Model()) && At(Model(), id, Finished)
      ensures exchanges[id].script == old(exchanges)[id].script
    {
      hide Apply, Inv, Run, Left;
      ghost var mid := Model();
      longer := Pause(HttpThread(id), before, steps);
      StillThere(mid, Model(), id);
      mid := Model();
      EraseOwn(id);
      longer := RunFurther(Next, before, longer, mid, WorkerErases(id), Model());
      RunKeepsInv(before, longer, Model());
    }

    /** complete_http, for a handler that does what `handled` says. */
    method CompleteHttp(id: string, handled: Handled) returns (erased: bool, ghost steps: seq<Step>)
      requires Inv(Model()) && At(Model(), id, FirstCheck)
      modifies this
      ensures Run(Next, old(Model()), steps, Model()) && Inv(Model()) && At(Model(), id, Finished)
      ensures !erased ==> exchanges[id].cancelledAt.Some? && exchanges[id].acked == []
      ensures handled.Threw? ==> exchanges[id].script == []
      ensures handled.Response? ==>
                exchanges[id].script == Script(handled.chunks) || (!erased && exchanges[id].script == [])
    {
      hide Apply, Inv, Run, Left, Doing, Script;
      ghost var before := Model();
      RunNothing(Next, before);
      NothingYet(before, id);
      var c;
      c, steps := LookAgain(id, CheckFirst, [], [], before, []);
      DoingMeans(Model(), id, AfterLook(CheckFirst, c), [], []);
      if c {
        return false, steps;
      }
      steps := HandlerPhase(id, handled, before, steps);
      DoingMeans(Model(), id, if handled.Threw? then Failing else SecondCheck, ScriptOf(handled), []);
      var ok := false;
      if handled.Response? {
        c, ok, steps := Respond(id, handled.chunks, before, steps);
        if c {
          return false, steps;
        }
      }
      if !ok {
        steps := ReportFailure(id, before, steps);
      }
      steps := EraseLater(id, before, steps);
      return true, steps;
    }

    /** The catch block: one failure frame, unless cancelled by now. */
    method ReportFailure(id: string, ghost before: State, ghost steps: seq<Step>) returns (ghost longer: seq<Step>)
      requires Inv(before) && Run(Next, before, steps, Model()) && Inv(Model()) && At(Model(), id, Failing)
      modifies this
      ensures Run(Next, before, longer, Model()) && Inv(Model()) && At(Model(), id, Erasing)
      ensures exchanges[id].script == old(exchanges)[id].script
    {
      hide Apply, Inv, Run, Left;
      ghost var script, acked := exchanges[id].script, exchanges[id].acked;
      var c;
      c, longer := LookAgain(id, CheckFailure, exchanges[id].script, exchanges[id].acked, before, steps);
      if !c {
        ghost var mid := Model();
        longer := Pause(HttpThread(id), before, longer);
        StillDoing(mid, Model(), id, SendingFailure, script, acked);
        mid := Model();
        var ok := Fail(id);
        longer := RunFurther(Next, before, longer, mid, Works(id, SendFailure(ok)), Model());
        RunKeepsInv(before, longer, Model());
      }
    }
  }

  datatype Handled = Threw | Response(chunks: seq<string>)

  function HandlerAct(handled: Handled): Act {
    match handled
    case Threw => HandlerThrows
    case Response(chunks) => HandlerReturns(chunks)
  }

  function ScriptOf(handled: Handled): seq<Frame> {
    match handled
    case Threw => []
    case Response(chunks) => Script(chunks)
  }

  function AfterSend(sent: nat, all: nat): Worker {
    if sent == all then Erasing else Sending
  }

  function BeforeLook(act: Act): Worker {
    match act
    case CheckFirst => FirstCheck
    case CheckSecond => SecondCheck
    case _ => Failing
  }

  lemma DoingMeans(s: State, id: string, worker: Worker, script: seq<Frame>, acked: seq<Frame>)
    requires Doing(s, id, worker, script, acked)
    ensures At(s, id, worker) && s.exchanges[id].script == script && s.exchanges[id].acked == acked
  {
  }

  lemma HandlerMayAct(s: State, id: string, handled: Handled)
    requires Doing(s, id, Handling, [], [])
    ensures Enabled(s, Works(id, HandlerAct(handled)))
  {
  }

  lemma StillThere(s: State, next: State, id: string)
    requires At(s, id, Erasing) && Left(s, next, HttpThread(id))
    ensures At(next, id, Erasing) && next.exchanges[id].script == s.exchanges[id].script
  {
  }

  /** What handling a chunk does after the look-up. */
  function ChunkSteps(found: bool, closed: bool, erased: bool): seq<Step> {
    if !found then [] else if erased then [Act(closed), ReaderErases] else [Act(closed)]
  }

  function CancelSteps(order: seq<string>): (steps: seq<Step>)
    ensures |steps| == |order| && forall i | 0 <= i < |steps| :: steps[i] == CancelOne(order[i])
  {
    seq(|order|, i requires 0 <= i < |order| => CancelOne(order[i]))
  }

  lemma NoSteps()
    ensures CancelSteps([]) == [] && forall who: Role :: Mine([], who) == []
  {
  }

  lemma OneLess(all: set<string>, left: set<string>, id: string)
    requires left <= all && id in left
    ensures all - (left - {id}) == (all - left) + {id} && |left - {id}| == |left| - 1
  {
  }

  lemma CancelStepsNext(order: seq<string>, id: string)
    ensures CancelSteps(order + [id]) == CancelSteps(order) + [CancelOne(id)]
  {
  }

  predicate AllCancelled(s: State, ids: set<string>) {
    forall id | id in ids :: id in s.exchanges && s.exchanges[id].cancelledAt.Some?
  }

  lemma NoneCancelled(s: State)
    ensures forall ids: set<string> | ids == {} :: AllCancelled(s, ids)
  {
  }

  lemma OneMoreCancelled(s: State, ids: set<string>, id: string)
    requires AllCancelled(s, ids) && AllCancelled(s, {id})
    ensures AllCancelled(s, ids + {id})
  {
    assert id in {id};
  }

  lemma RaisedToo(s: State, next: State, id: string)
    requires id in next.exchanges && next.exchanges == s.exchanges[id := next.exchanges[id]]
    requires next.exchanges[id].cancelledAt.Some?
    ensures AllCancelled(next, {id}) && forall ids | AllCancelled(s, ids) :: AllCancelled(next, ids)
  {
  }

  lemma StillCancelled(s: State, next: State, who: Role)
    requires Left(s, next, who)
    ensures forall ids | AllCancelled(s, ids) :: AllCancelled(next, ids)
  {
    forall ids, id | AllCancelled(s, ids) && id in ids
      ensures id in next.exchanges && next.exchanges[id].cancelledAt.Some?
    {
      assert Stays(s.exchanges[id], next.exchanges[id]);
    }
  }

  lemma SwappedStay(s: State, next: State)
    requires Left(s, next, Canceller) && Inv(next)
    ensures next.swapped == s.swapped && next.swapped <= next.exchanges.Keys
  {
  }

  lemma FoundExists(s: State)
    requires Inv(s)
    ensures s.pending <= s.exchanges.Keys
    ensures s.reader.Found? || s.reader.Erases? ==> s.reader.id in s.exchanges
  {
  }

  // ------------------------------------------------------- what runs show

  /** With nothing under way, the map holds the started exchanges neither cancelled nor completed. */
  predicate BooksAgree(s: State) {
    forall id | id in s.exchanges ::
      id in s.pending <==> s.exchanges[id].cancelledAt.None? && !s.exchanges[id].completed
  }

  /**
    Bookkeeping: whenever neither the read thread nor cancel_all is in the middle
    of something, the map is exact, unless closing a cancelled websocket threw
    and left its entry behind.
   */
  lemma QuiescentBooks(steps: seq<Step>, end: State)
    requires Run(Next, INIT, steps, end) && end.reader.Idle? && end.swapped == {}
    ensures BooksAgree(end) <==> end.stuck * end.pending == {}
  {
    RunKeepsInv(INIT, steps, end);
    assert forall id | id in end.exchanges :: Booked(end, id);
    if id :| id in end.stuck * end.pending {
      assert end.exchanges[id].cancelledAt.Some?;
    }
  }

  /** For HTTP exchanges alone there is no such exception. */
  lemma HttpBooks(steps: seq<Step>, end: State)
    requires Run(Next, INIT, steps, end) && end.reader.Idle? && end.swapped == {}
    requires forall id | id in end.exchanges :: !end.exchanges[id].websocket
    ensures BooksAgree(end)
  {
    RunKeepsInv(INIT, steps, end);
    QuiescentBooks(steps, end);
    assert forall id | id in end.stuck :: id in end.exchanges;
  }

  /** From the steps alone: the chunk the read thread last looked up. */
  function LastLookUp(steps: seq<Step>): Option<Step> {
    if |steps| == 0 then None
    else if steps[|steps| - 1].LookUp? then Some(steps[|steps| - 1])
    else LastLookUp(steps[..|steps| - 1])
  }

  /** From the steps alone: the data of the chunks for this id that were acted on and were no cancellation. */
  function Delivered(steps: seq<Step>, id: string): seq<string> {
    if |steps| == 0 then []
    else
      var before, last := steps[..|steps| - 1], steps[|steps| - 1];
      var chunk := LastLookUp(before);
      if last.Act? && chunk.Some? && chunk.value.LookUp? && chunk.value.id == id && !chunk.value.cancel then
        Delivered(before, id) + [chunk.value.data]
      else Delivered(before, id)
  }

  /** What the read thread has found is what it last looked up. */
  predicate FoundIsLookUp(s: State, steps: seq<Step>) {
    s.reader.Found? ==> LastLookUp(steps) == Some(LookUp(s.reader.id, s.reader.data, s.reader.cancel, s.reader.end))
  }

  lemma FoundStep(s: State, step: Step, next: State)
    requires Next(s, step) == Some(next)
    ensures step.LookUp? && next.reader.Found? ==>
              step == LookUp(next.reader.id, next.reader.data, next.reader.cancel, next.reader.end)
    ensures !step.LookUp? ==> !next.reader.Found? || next.reader == s.reader
  {
    hide Work, CanWork, Take, Cancel;
  }

  lemma {:induction false} FoundIsKnown(steps: seq<Step>, end: State)
    requires Run(Next, INIT, steps, end)
    ensures FoundIsLookUp(end, steps)
    decreases |steps|
  {
    hide Run, Next;
    if |steps| == 0 {
      RunNothingEnds(Next, INIT, steps, end);
    } else {
      var n := |steps| - 1;
      var mid := RunLast(Next, INIT, steps, end);
      FoundIsKnown(steps[..n], mid);
      FoundStep(mid, steps[n], end);
    }
  }

  /** One step receives at most the data the read thread has found for an HTTP exchange. */
  lemma ReceivedStep(s: State, step: Step, next: State, id: string)
    requires Next(s, step) == Some(next) && id in next.exchanges && !next.exchanges[id].websocket
    ensures id !in s.exchanges ==> next.exchanges[id].received == [] && !step.Act?
    ensures id in s.exchanges ==>
              var taken := step.Act? && s.reader.id == id && !s.reader.cancel;
              && !s.exchanges[id].websocket
              && (taken ==> next.exchanges[id].received == s.exchanges[id].received + [s.reader.data])
              && (!taken ==> next.exchanges[id].received == s.exchanges[id].received)
  {
    hide CanWork;
    if step.Works? && step.id == id {
      WorkReceives(s.exchanges[id], step.act, s.time);
    }
  }

  lemma WorkReceives(e: Exchange, act: Act, time: nat)
    requires CanWork(e, act)
    ensures Work(e, act, time).received == e.received && Work(e, act, time).websocket == e.websocket
  {
  }

  lemma ActIsOnLookUp(s: State, step: Step, next: State, steps: seq<Step>)
    requires Next(s, step) == Some(next) && step.Act? && FoundIsLookUp(s, steps)
    ensures LastLookUp(steps) == Some(LookUp(s.reader.id, s.reader.data, s.reader.cancel, s.reader.end))
  {
    hide Apply;
  }

  /** Chunks for an exchange that has not begun are not acted on. */
  lemma {:induction false} NoneDelivered(steps: seq<Step>, end: State, id: string)
    requires Run(Next, INIT, steps, end) && id !in end.exchanges
    ensures Delivered(steps, id) == []
    decreases |steps|
  {
    hide Run, Next;
    if |steps| > 0 {
      var n := |steps| - 1;
      var mid := RunLast(Next, INIT, steps, end);
      OnlyAdds(mid, steps[n], end);
      NoneDelivered(steps[..n], mid, id);
      FoundIsKnown(steps[..n], mid);
      if steps[n].Act? {
        ActIsOnLookUp(mid, steps[n], end, steps[..n]);
      }
    }
  }

  lemma OnlyAdds(s: State, step: Step, next: State)
    requires Next(s, step) == Some(next)
    ensures s.exchanges.Keys <= next.exchanges.Keys && (step.Act? ==> s.reader.id in s.exchanges)
  {
    hide Work, CanWork, Take, Cancel;
  }

  /** What an HTTP exchange has received is what was delivered to it. */
  lemma {:induction false} ReceivedIsDelivered(steps: seq<Step>, end: State, id: string)
    requires Run(Next, INIT, steps, end) && id in end.exchanges && !end.exchanges[id].websocket
    ensures end.exchanges[id].received == Delivered(steps, id)
    decreases |steps|
  {
    hide Run, Next, FoundIsLookUp;
    if |steps| == 0 {
      RunNothingEnds(Next, INIT, steps, end);
    } else {
      var n := |steps| - 1;
      var mid := RunLast(Next, INIT, steps, end);
      ReceivedStep(mid, steps[n], end, id);
      FoundIsKnown(steps[..n], mid);
      if steps[n].Act? {
        ActIsOnLookUp(mid, steps[n], end, steps[..n]);
      }
      if id in mid.exchanges {
        ReceivedIsDelivered(steps[..n], mid, id);
      } else {
        NoneDelivered(steps[..n], mid, id);
      }
    }
  }

  /** The acknowledged frames of every exchange, in every run, and what its handler was given. */
  lemma OutputIsGood(steps: seq<Step>, end: State, id: string)
    requires Run(Next, INIT, steps, end) && id in end.exchanges
    ensures var e := end.exchanges[id];
            && (e.script == [] ==> e.acked <= [Failure])
            && (e.script != [] ==> GoodOutput(e.script, e.acked) && exists chunks :: e.script == Script(chunks))
            && (HandlerCalled(e) ==> e.given == Join(Delivered(steps, id)))
  {
    RunKeepsInv(INIT, steps, end);
    assert ExchangeInv(end.exchanges[id], end.time);
    if HandlerCalled(end.exchanges[id]) {
      ReceivedIsDelivered(steps, end, id);
    }
  }

  /** What one step does to one exchange: it begins, its thread works, or only flags and books change. */
  lemma ExchangeStep(s: State, step: Step, next: State, id: string)
    requires Next(s, step) == Some(next) && id in next.exchanges
    ensures id !in s.exchanges ==> next.exchanges[id].script == [] && next.exchanges[id].worker == NotSpawned
    ensures id in s.exchanges && step.Works? && step.id == id ==>
              CanWork(s.exchanges[id], step.act) && next.exchanges[id] == Work(s.exchanges[id], step.act, s.time)
    ensures id in s.exchanges && !(step.Works? && step.id == id) ==>
              var e, e' := s.exchanges[id], next.exchanges[id];
              && e'.script == e.script && e'.acked == e.acked && (e.cancelledAt.Some? ==> e'.cancelledAt.Some?)
              && (e'.worker == e.worker || e'.worker == FirstCheck || (e.worker == Erasing && e'.worker == Finished))
  {
    hide Work, CanWork;
  }

  /** The script of an exchange is that of the response its handler returned. */
  lemma WorkScripts(e: Exchange, act: Act, time: nat)
    requires CanWork(e, act)
    ensures Work(e, act, time).script == if act.HandlerReturns? then Script(act.chunks) else e.script
  {
    hide Script;
  }

  lemma ScriptStep(s: State, step: Step, next: State, id: string)
    requires Next(s, step) == Some(next) && id in next.exchanges && next.exchanges[id].script != []
    ensures (id in s.exchanges && s.exchanges[id].script == next.exchanges[id].script)
            || (step.Works? && step.id == id && step.act.HandlerReturns?
                && next.exchanges[id].script == Script(step.act.chunks))
  {
    hide Next, Work, CanWork, Script;
    ExchangeStep(s, step, next, id);
    if id in s.exchanges && step.Works? && step.id == id {
      WorkScripts(s.exchanges[id], step.act, s.time);
    }
  }

  lemma {:induction false} ScriptIsReturned(steps: seq<Step>, end: State, id: string) returns (chunks: seq<string>)
    requires Run(Next, INIT, steps, end) && id in end.exchanges && end.exchanges[id].script != []
    ensures Works(id, HandlerReturns(chunks)) in steps && end.exchanges[id].script == Script(chunks)
    decreases |steps|
  {
    hide Run, Next, Inv, Script;
    if |steps| == 0 {
      RunNothingEnds(Next, INIT, steps, end);
      assert false;
    } else {
      var n := |steps| - 1;
      var mid := RunLast(Next, INIT, steps, end);
      InitInv();
      RunKeepsInv(INIT, steps[..n], mid);
      ScriptStep(mid, steps[n], end, id);
      if id in mid.exchanges && mid.exchanges[id].script == end.exchanges[id].script {
        chunks := ScriptIsReturned(steps[..n], mid, id);
        assert steps == steps[..n] + [steps[n]];
      } else {
        chunks := steps[n].act.chunks;
      }
    }
  }

  lemma InitInv()
    ensures Inv(INIT)
  {
  }

  /** From the steps alone: a failure frame was tried for this exchange. */
  predicate FailureTried(steps: seq<Step>, id: string) {
    Works(id, SendFailure(true)) in steps || Works(id, SendFailure(false)) in steps
  }

  /** The thread is past its sending, and nobody has cancelled. */
  predicate PastSending(e: Exchange) {
    (e.worker == Erasing || e.worker == Finished) && e.cancelledAt.None?
  }

  lemma WorkReports(e: Exchange, act: Act, time: nat)
    requires ExchangeInv(e, time) && CanWork(e, act) && PastSending(Work(e, act, time))
    ensures var e' := Work(e, act, time); act.SendFailure? || (e'.script != [] && e'.acked == e'.script)
  {
    hide GoodOutput, Script, Join;
  }

  lemma ReportStep(s: State, step: Step, next: State, id: string)
    requires Inv(s) && Next(s, step) == Some(next) && id in next.exchanges && PastSending(next.exchanges[id])
    ensures id in s.exchanges
    ensures || (PastSending(s.exchanges[id]) && next.exchanges[id].acked == s.exchanges[id].acked
                && next.exchanges[id].script == s.exchanges[id].script)
            || (next.exchanges[id].script != [] && next.exchanges[id].acked == next.exchanges[id].script)
            || step == Works(id, SendFailure(true)) || step == Works(id, SendFailure(false))
  {
    hide Inv, Next, Work, CanWork, ExchangeInv;
    ExchangeStep(s, step, next, id);
    if step.Works? && step.id == id {
      ExchangeOf(s, id);
      WorkReports(s.exchanges[id], step.act, s.time);
      assert step.act.SendFailure? ==> step == Works(id, SendFailure(step.act.ok));
    }
  }

  lemma ExchangeOf(s: State, id: string)
    requires Inv(s) && id in s.exchanges
    ensures ExchangeInv(s.exchanges[id], s.time)
  {
  }

  /** An uncancelled thread that is done has sent the whole response, or tried to say that it failed. */
  lemma {:induction false} CompleteOrReported(steps: seq<Step>, end: State, id: string)
    requires Run(Next, INIT, steps, end) && id in end.exchanges && PastSending(end.exchanges[id])
    ensures var e := end.exchanges[id]; (e.script != [] && e.acked == e.script) || FailureTried(steps, id)
    decreases |steps|
  {
    hide Run, Next, Inv, PastSending;
    if |steps| == 0 {
      RunNothingEnds(Next, INIT, steps, end);
      assert false;
    } else {
      var n := |steps| - 1;
      var mid := RunLast(Next, INIT, steps, end);
      InitInv();
      RunKeepsInv(INIT, steps[..n], mid);
      ReportStep(mid, steps[n], end, id);
      assert steps == steps[..n] + [steps[n]];
      if PastSending(mid.exchanges[id]) && end.exchanges[id].acked == mid.exchanges[id].acked
         && end.exchanges[id].script == mid.exchanges[id].script {
        CompleteOrReported(steps[..n], mid, id);
      }
    }
  }

  /** The user's handler is running, has returned, or has thrown. */
  predicate HandlerCalled(e: Exchange) {
    && e.worker != NotSpawned && e.worker != FirstCheck
    && (e.worker == Finished ==> e.completed || e.script != [])
  }

  /** From the steps alone: this step cancels the exchange. */
  predicate CancelsAt(steps: seq<Step>, k: nat, id: string)
    requires k < |steps|
  {
    || steps[k] == CancelOne(id)
    || (steps[k].Act? && LastLookUp(steps[..k]).Some?
        && var chunk := LastLookUp(steps[..k]).value; chunk.LookUp? && chunk.id == id && chunk.cancel)
  }

  /** From the steps alone: where the exchange is first cancelled. */
  predicate FirstCancel(steps: seq<Step>, id: string, at: Option<nat>) {
    match at
    case None => forall k | 0 <= k < |steps| :: !CancelsAt(steps, k, id)
    case Some(n) => n < |steps| && CancelsAt(steps, n, id) && forall k | 0 <= k < n :: !CancelsAt(steps, k, id)
  }

  lemma CancelsBefore(steps: seq<Step>, k: nat, id: string)
    requires k < |steps| - 1
    ensures CancelsAt(steps, k, id) <==> CancelsAt(steps[..|steps| - 1], k, id)
  {
    assert steps[..|steps| - 1][..k] == steps[..k];
  }

  lemma CancelNext(steps: seq<Step>, id: string, before: Option<nat>, after: Option<nat>)
    requires |steps| > 0 && FirstCancel(steps[..|steps| - 1], id, before)
    requires after == if before.None? && CancelsAt(steps, |steps| - 1, id) then Some(|steps| - 1) else before
    ensures FirstCancel(steps, id, after)
  {
    hide CancelsAt;
    forall k | 0 <= k < |steps| - 1
      ensures CancelsAt(steps, k, id) <==> CancelsAt(steps[..|steps| - 1], k, id)
    {
      CancelsBefore(steps, k, id);
    }
  }

  /** Time counts the steps, so that a time says which step it was. */
  lemma FlagStep(s: State, step: Step, next: State, id: string, steps: seq<Step>)
    requires Next(s, step) == Some(next) && id in next.exchanges && FoundIsLookUp(s, steps)
    ensures next.time == s.time + 1
    ensures id !in s.exchanges ==>
              && next.exchanges[id].cancelledAt.None? && next.exchanges[id].checkedAt.None?
              && !step.Act? && step != CancelOne(id)
    ensures id in s.exchanges ==>
              var e, e' := s.exchanges[id], next.exchanges[id];
              && e'.cancelledAt == (if e.cancelledAt.None? && CancelsAt(steps + [step], |steps|, id) then Some(s.time)
                                    else e.cancelledAt)
              && (e'.checkedAt == e.checkedAt || (step == Works(id, CheckSecond) && e'.checkedAt == Some(s.time)))
  {
    hide CanWork;
    assert (steps + [step])[..|steps|] == steps;
    if step.Works? && step.id == id {
      WorkFlags(s.exchanges[id], step.act, s.time);
    }
  }

  lemma WorkFlags(e: Exchange, act: Act, time: nat)
    requires CanWork(e, act)
    ensures var e' := Work(e, act, time);
            && e'.cancelledAt == e.cancelledAt
            && (e'.checkedAt == e.checkedAt || (act == CheckSecond && e'.checkedAt == Some(time)))
  {
  }

  lemma NoCancelYet(s: State, step: Step, next: State, id: string, steps: seq<Step>)
    requires Inv(s) && Next(s, step) == Some(next) && FoundIsLookUp(s, steps) && id !in s.exchanges
    ensures !CancelsAt(steps + [step], |steps|, id)
  {
    hide Inv, Work, CanWork;
    assert (steps + [step])[..|steps|] == steps;
  }

  lemma TimePassed(s: State, step: Step, next: State)
    requires Next(s, step) == Some(next)
    ensures next.time == s.time + 1 && s.exchanges.Keys <= next.exchanges.Keys
  {
    hide Work, CanWork, Take, Cancel;
  }

  /** Before it begins an exchange is not cancelled. */
  lemma {:induction false} NotCancelled(steps: seq<Step>, end: State, id: string)
    requires Run(Next, INIT, steps, end) && id !in end.exchanges
    ensures FirstCancel(steps, id, None)
    decreases |steps|
  {
    hide Run, Next, Inv, CancelsAt, FoundIsLookUp;
    if |steps| > 0 {
      var n := |steps| - 1;
      var mid := RunLast(Next, INIT, steps, end);
      TimePassed(mid, steps[n], end);
      NotCancelled(steps[..n], mid, id);
      InitInv();
      RunKeepsInv(INIT, steps[..n], mid);
      FoundIsKnown(steps[..n], mid);
      NoCancelYet(mid, steps[n], end, id, steps[..n]);
      assert steps == steps[..n] + [steps[n]];
      CancelNext(steps, id, None, None);
    }
  }

  lemma {:induction false} TimeIsIndex(steps: seq<Step>, end: State)
    requires Run(Next, INIT, steps, end)
    ensures end.time == |steps|
    decreases |steps|
  {
    hide Run, Next;
    if |steps| == 0 {
      RunNothingEnds(Next, INIT, steps, end);
    } else {
      var mid := RunLast(Next, INIT, steps, end);
      TimeIsIndex(steps[..|steps| - 1], mid);
      TimePassed(mid, steps[|steps| - 1], end);
    }
  }

  /** The flag of an exchange goes up exactly at its first cancellation, and its second look is a step. */
  lemma {:induction false} FlagsAreSteps(steps: seq<Step>, end: State, id: string)
    requires Run(Next, INIT, steps, end) && id in end.exchanges
    ensures FirstCancel(steps, id, end.exchanges[id].cancelledAt)
    ensures var at := end.exchanges[id].checkedAt;
            at.Some? ==> at.value < |steps| && steps[at.value] == Works(id, CheckSecond)
    decreases |steps|
  {
    hide Run, Next, Inv, CancelsAt, FoundIsLookUp, FirstCancel;
    if |steps| == 0 {
      RunNothingEnds(Next, INIT, steps, end);
      assert false;
    } else {
      var n := |steps| - 1;
      var mid := RunLast(Next, INIT, steps, end);
      TimeIsIndex(steps[..n], mid);
      FoundIsKnown(steps[..n], mid);
      FlagStep(mid, steps[n], end, id, steps[..n]);
      assert steps == steps[..n] + [steps[n]];
      if id in mid.exchanges {
        FlagsAreSteps(steps[..n], mid, id);
        CancelNext(steps, id, mid.exchanges[id].cancelledAt, end.exchanges[id].cancelledAt);
      } else {
        NotCancelled(steps[..n], mid, id);
        InitInv();
        RunKeepsInv(INIT, steps[..n], mid);
        NoCancelYet(mid, steps[n], end, id, steps[..n]);
        CancelNext(steps, id, None, None);
      }
    }
  }

  /**
    A start frame is sent, acknowledged or not, only if the thread's second look
    at the flag came before any cancellation of its exchange.
   */
  lemma NoStartAfterCancel(steps: seq<Step>, end: State, id: string) returns (look: nat)
    requires Run(Next, INIT, steps, end) && id in end.exchanges
    requires end.exchanges[id].worker == Sending || Start in end.exchanges[id].acked
    ensures look < |steps| && steps[look] == Works(id, CheckSecond)
    ensures forall k | 0 <= k < look :: !CancelsAt(steps, k, id)
  {
    RunKeepsInv(INIT, steps, end);
    assert ExchangeInv(end.exchanges[id], end.time);
    FlagsAreSteps(steps, end, id);
    look := end.exchanges[id].checkedAt.value;
  }

  /** A websocket whose close throws when it is cancelled stays in the map. */
  lemma CancelledStaysPending()
    ensures exists end ::
              && Run(Next, INIT, [StartRequest("w", true, true), LookUp("w", "", true, false), Act(false)], end)
              && end.reader.Idle? && end.swapped == {} && "w" in end.stuck * end.pending && !BooksAgree(end)
  {
    hide Run;
    var s1 := Apply(INIT, StartRequest("w", true, true));
    var s2 := Apply(s1, LookUp("w", "", true, false));
    var s3 := Apply(s2, Step.Act(false));
    RunOne(Next, INIT, StartRequest("w", true, true));
    var steps := RunFurther(Next, INIT, [StartRequest("w", true, true)], s1, LookUp("w", "", true, false), s2);
    steps := RunFurther(Next, INIT, steps, s2, Step.Act(false), s3);
    assert steps == [StartRequest("w", true, true), LookUp("w", "", true, false), Step.Act(false)];
    assert "w" in s3.exchanges && "w" in s3.pending && s3.exchanges["w"].cancelledAt.Some?;
  }
}
