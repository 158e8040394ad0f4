/**
  Tool calls of a session. An event dispatch counts the call and launches a thread
  for it; the thread runs the handler and answers unless the session was told to
  stop answering; the session's destructor waits for the threads.
 */
module ToolCalls {
  import opened Basics

  // ------------------------------------------------------------ one call

  /** How foreign code ends: it returns, throws a std::exception, or throws something else. */
  datatype Outcome = Returns | Throws | Escapes

  datatype Payload = ResultAnswer | ErrorAnswer

  /** `checkedAt` is when the attempt last found the cancellation flag clear. */
  datatype Attempt = Attempt(payload: Payload, checkedAt: nat, outcome: Outcome)

  datatype Phase =
    | Counted                                    // the counter went up, no thread yet
    | Handling
    | Answering(payload: Payload)                // before the look at the flag
    | Sending(payload: Payload, checkedAt: nat)  // the flag was clear
    | Leaving                                    // before the counter goes down
    | Done
    | Lost                                       // left without the counter going down

  datatype Call = Call(
    requestId: string,
    phase: Phase,
    launched: Option<bool>,
    listed: bool,
    handler: Option<Outcome>,
    attempts: seq<Attempt>)

  datatype Act =
    | Launch(ok: bool)
    | Enlist
    | HandlerEnds(outcome: Outcome)
    | Look
    | Send(outcome: Outcome)
    | CountDown

  predicate CanAct(c: Call, act: Act) {
    match act
    case Launch(_) => c.phase.Counted?
    case Enlist => c.launched == Some(true) && !c.listed
    case HandlerEnds(_) => c.phase.Handling?
    case Look => c.phase.Answering?
    case Send(_) => c.phase.Sending?
    case CountDown => c.phase.Leaving?
  }

  function Advance(c: Call, act: Act, cancelled: bool, time: nat): Call
    requires CanAct(c, act)
  {
    match act
    case Launch(ok) => c.(launched := Some(ok), phase := if ok then Handling else Lost)
    case Enlist => c.(listed := true)
    case HandlerEnds(outcome) =>
      c.(handler := Some(outcome),
         phase := match outcome
                  case Returns => Answering(ResultAnswer)
                  case Throws => Answering(ErrorAnswer)
                  case Escapes => Lost)
    case Look => c.(phase := if cancelled then Leaving else Sending(c.phase.payload, time))
    case Send(outcome) =>
      c.(attempts := c.attempts + [Attempt(c.phase.payload, c.phase.checkedAt, outcome)],
         phase := if c.phase.payload.ErrorAnswer? || outcome.Returns? then Leaving
                  else if outcome.Throws? then Answering(ErrorAnswer)
                  else Lost)
    case CountDown => c.(phase := Done)
  }

  // ---------------------------------------------------------- the session

  datatype Life = Alive | Waiting | Gone

  /** `tools` holds the names registered with a handler. */
  datatype State = State(
    tools: set<string>,
    calls: seq<Call>,
    counter: int,
    cancelledAt: Option<nat>,
    life: Life,
    time: nat)

  datatype Step =
    | Dispatch(requestId: string, tool: string)
    | Works(index: nat, act: Act)
    | CancelCalls
    | DestructorSwaps
    | DestructorWaited

  function NewCall(requestId: string): Call {
    Call(requestId, Counted, None, false, None, [])
  }

  function Initial(tools: set<string>): State {
    State(tools, [], 0, None, Alive, 0)
  }

  /** A dispatch is still busy with the call: it owns a reference to the session. */
  predicate InDispatch(c: Call) {
    c.phase.Counted? || (c.launched == Some(true) && !c.listed)
  }

  predicate Enabled(s: State, step: Step) {
    match step
    case Dispatch(_, _) => s.life.Alive?
    case Works(i, act) => i < |s.calls| && CanAct(s.calls[i], act)
    case CancelCalls => s.life.Alive?
    case DestructorSwaps => s.life.Alive? && forall c | c in s.calls :: !InDispatch(c)
    case DestructorWaited => s.life.Waiting? && forall c | c in s.calls :: c.listed ==> Ended(c)
  }

  function Apply(s: State, step: Step): State
    requires Enabled(s, step)
  {
    var s := s.(time := s.time + 1);
    match step
    case Dispatch(requestId, tool) =>
      if tool !in s.tools then s
      else s.(calls := s.calls + [NewCall(requestId)], counter := s.counter + 1)
    case Works(i, act) =>
      s.(calls := s.calls[i := Advance(s.calls[i], act, s.cancelledAt.Some?, s.time - 1)],
         counter := if act.CountDown? then s.counter - 1 else s.counter)
    case CancelCalls => if s.cancelledAt.None? then s.(cancelledAt := Some(s.time - 1)) else s
    case DestructorSwaps => s.(life := Waiting)
    case DestructorWaited => s.(life := Gone)
  }

  // -------------------------------------------------------- the invariant

  /** The thread of the call is over. */
  predicate Ended(c: Call) {
    c.phase.Done? || c.phase.Lost?
  }

  predicate Open(c: Call) {
    !Ended(c)
  }

  predicate Held(c: Call) {
    !c.phase.Done?
  }

  /** The three ways to get past the count down. */
  predicate Cause(c: Call) {
    || c.launched == Some(false)
    || c.handler == Some(Escapes)
    || (|c.attempts| > 0 && c.attempts[0].payload.ResultAnswer? && c.attempts[0].outcome.Escapes?)
  }

  /** At most a result and, if sending it failed, an error; an error alone only if the handler threw. */
  predicate GoodAttempts(c: Call) {
    && |c.attempts| <= 2
    && (|c.attempts| > 0 ==> c.handler == Some(if c.attempts[0].payload.ResultAnswer? then Returns else Throws))
    && (|c.attempts| == 2 ==> c.attempts[0].payload.ResultAnswer? && c.attempts[0].outcome.Throws?
                              && c.attempts[1].payload.ErrorAnswer?)
  }

  /** Nothing is left to say: an answer got through or the error answer was tried. */
  predicate Spoken(c: Call) {
    && |c.attempts| > 0
    && var last := c.attempts[|c.attempts| - 1]; last.outcome.Returns? || last.payload.ErrorAnswer?
  }

  predicate PhaseFits(c: Call) {
    match c.phase
    case Counted => c.launched.None? && c.handler.None? && c.attempts == []
    case Handling => c.launched == Some(true) && c.handler.None? && c.attempts == []
    case Answering(payload) => c.launched == Some(true) && ReadyFor(c, payload)
    case Sending(payload, _) => c.launched == Some(true) && ReadyFor(c, payload)
    case _ => c.launched.Some?
  }

  predicate ReadyFor(c: Call, payload: Payload) {
    if payload.ResultAnswer? then c.handler == Some(Returns) && c.attempts == []
    else
      || (c.handler == Some(Throws) && c.attempts == [])
      || (c.handler == Some(Returns) && |c.attempts| == 1
          && c.attempts[0].payload.ResultAnswer? && c.attempts[0].outcome.Throws?)
  }

  predicate Before(t: nat, cancelledAt: Option<nat>) {
    cancelledAt.Some? ==> t < cancelledAt.value
  }

  predicate CallInv(c: Call, cancelledAt: Option<nat>, time: nat) {
    && PhaseFits(c) && GoodAttempts(c)
    && (c.phase.Lost? <==> Cause(c))
    && (c.listed ==> c.launched == Some(true))
    && (c.phase.Sending? ==> c.phase.checkedAt < time && Before(c.phase.checkedAt, cancelledAt))
    && (forall a | a in c.attempts :: a.checkedAt < time && Before(a.checkedAt, cancelledAt))
    && (c.phase.Leaving? || c.phase.Done? ==> Spoken(c) || cancelledAt.Some?)
  }

  function Count(calls: seq<Call>, counts: Call -> bool): nat {
    if |calls| == 0 then 0
    else Count(calls[..|calls| - 1], counts) + if counts(calls[|calls| - 1]) then 1 else 0
  }

  ghost predicate Inv(s: State) {
    && s.counter == Count(s.calls, Held)
    && (s.cancelledAt.Some? ==> s.cancelledAt.value < s.time)
    && (forall i | 0 <= i < |s.calls| :: CallInv(s.calls[i], s.cancelledAt, s.time))
    && (!s.life.Alive? ==> forall i | 0 <= i < |s.calls| :: !InDispatch(s.calls[i]))
    && (s.life.Gone? ==> forall i | 0 <= i < |s.calls| :: Ended(s.calls[i]))
  }

  // ------------------------------------------------------------- counting

  lemma {:induction false} CountUpdate(calls: seq<Call>, i: nat, c: Call, counts: Call -> bool)
    requires i < |calls|
    ensures Count(calls[i := c], counts) + (if counts(calls[i]) then 1 else 0) ==
            Count(calls, counts) + if counts(c) then 1 else 0
  {
    var n := |calls| - 1;
    if i < n {
      CountUpdate(calls[..n], i, c, counts);
      assert calls[i := c][..n] == calls[..n][i := c];
    } else {
      assert calls[i := c][..n] == calls[..n];
    }
  }

  lemma CountAppend(calls: seq<Call>, c: Call, counts: Call -> bool)
    ensures Count(calls + [c], counts) == Count(calls, counts) + if counts(c) then 1 else 0
  {
    assert (calls + [c])[..|calls|] == calls;
  }

  lemma {:induction false} CountSplits(calls: seq<Call>)
    ensures Count(calls, Held) == Count(calls, Open) + Count(calls, (c: Call) => c.phase.Lost?)
  {
    if |calls| > 0 {
      CountSplits(calls[..|calls| - 1]);
    }
  }

  lemma {:induction false} CountZero(calls: seq<Call>, counts: Call -> bool)
    ensures Count(calls, counts) == 0 <==> forall i | 0 <= i < |calls| :: !counts(calls[i])
  {
    if |calls| > 0 {
      var n := |calls| - 1;
      CountZero(calls[..n], counts);
      assert forall i | 0 <= i < n :: calls[..n][i] == calls[i];
    }
  }

  // ------------------------------------------------------------ the steps

  lemma AdvanceKeeps(c: Call, act: Act, cancelledAt: Option<nat>, time: nat)
    requires CallInv(c, cancelledAt, time) && CanAct(c, act) && (cancelledAt.Some? ==> cancelledAt.value < time)
    ensures CallInv(Advance(c, act, cancelledAt.Some?, time), cancelledAt, time + 1)
    ensures Held(Advance(c, act, cancelledAt.Some?, time)) <==> Held(c) && !act.CountDown?
  {
  }

  /** Neither the passing of time nor the first cancellation disturbs a call. */
  lemma CallPasses(c: Call, before: Option<nat>, after: Option<nat>, time: nat)
    requires CallInv(c, before, time)
    requires after == before || (before.None? && after == Some(time))
    ensures CallInv(c, after, time + 1)
  {
  }

  lemma WorksKeeps(s: State, i: nat, act: Act)
    requires Inv(s) && Enabled(s, Works(i, act))
    ensures Inv(Apply(s, Works(i, act)))
  {
    hide CallInv;
    var c := s.calls[i];
    var c' := Advance(c, act, s.cancelledAt.Some?, s.time);
    AdvanceKeeps(c, act, s.cancelledAt, s.time);
    CountUpdate(s.calls, i, c', Held);
    AllPass(s, s.cancelledAt);
    assert !s.life.Alive? ==> !InDispatch(c);
    ActsInDispatch(c, act, s.cancelledAt, s.time);
  }

  /** A call no dispatch is busy with stays so, and a call that has ended moves no more. */
  lemma ActsInDispatch(c: Call, act: Act, cancelledAt: Option<nat>, time: nat)
    requires CallInv(c, cancelledAt, time) && CanAct(c, act)
    ensures !InDispatch(c) ==> !InDispatch(Advance(c, act, cancelledAt.Some?, time)) && !Ended(c)
  {
  }

  lemma AllPass(s: State, after: Option<nat>)
    requires Inv(s) && (after == s.cancelledAt || (s.cancelledAt.None? && after == Some(s.time)))
    ensures forall i | 0 <= i < |s.calls| :: CallInv(s.calls[i], after, s.time + 1)
  {
    forall i | 0 <= i < |s.calls|
      ensures CallInv(s.calls[i], after, s.time + 1)
    {
      CallPasses(s.calls[i], s.cancelledAt, after, s.time);
    }
  }

  lemma NewCallKeeps(requestId: string, cancelledAt: Option<nat>, time: nat)
    ensures CallInv(NewCall(requestId), cancelledAt, time + 1)
  {
  }

  lemma StepKeepsInv(s: State, step: Step)
    requires Inv(s) && Enabled(s, step)
    ensures Inv(Apply(s, step))
  {
    hide CallInv;
    match step
    case Dispatch(requestId, tool) =>
      NewCallKeeps(requestId, s.cancelledAt, s.time);
      AllPass(s, s.cancelledAt);
      CountAppend(s.calls, NewCall(requestId), Held);
    case Works(i, act) => WorksKeeps(s, i, act);
    case CancelCalls => AllPass(s, Apply(s, CancelCalls).cancelledAt);
    case DestructorSwaps => AllPass(s, s.cancelledAt);
    case DestructorWaited =>
      AllPass(s, s.cancelledAt);
      WaitedEnds(s);
  }

  /** A future the destructor did not have belongs to a thread that never was. */
  lemma WaitedEnds(s: State)
    requires Inv(s) && Enabled(s, DestructorWaited)
    ensures forall i | 0 <= i < |s.calls| :: Ended(s.calls[i])
  {
    forall i | 0 <= i < |s.calls|
      ensures Ended(s.calls[i])
    {
      var c := s.calls[i];
      assert c in s.calls && CallInv(c, s.cancelledAt, s.time) && !InDispatch(c);
      assert c.launched.Some?;
      assert !InDispatch(c);
      if !c.listed {
        assert c.launched != Some(true);
        assert !c.launched.value;
        assert Cause(c);
      }
    }
  }

  // ----------------------------------------------------------- whole runs

  function Next(s: State, step: Step): Option<State> {
    if Enabled(s, step) then Some(Apply(s, step)) else None
  }

  lemma RunKeepsInv(s: State, steps: seq<Step>, end: State)
    requires Inv(s) && Run(Next, s, steps, end)
    ensures Inv(end)
  {
    forall a: State, step: Step | Inv(a) && Next(a, step).Some?
      ensures Inv(Next(a, step).value)
    {
      StepKeepsInv(a, step);
    }
    RunKeeps(Next, Inv, s, steps, end);
  }

  // --------------------------------------------------------- who does what

  datatype Role = DispatchOf(index: nat) | ThreadOf(index: nat)

  predicate Belongs(step: Step, who: Role) {
    match step
    case Works(i, Launch(_)) => who == DispatchOf(i)
    case Works(i, Enlist) => who == DispatchOf(i)
    case Works(i, _) => who == ThreadOf(i)
    case _ => false
  }

  predicate Others(steps: seq<Step>, who: Role) {
    forall i | 0 <= i < |steps| :: !Belongs(steps[i], who)
  }

  /** The thread of a call leaves its listing to the dispatch, and the dispatch everything else to the thread. */
  predicate Left(s: State, next: State, who: Role) {
    && |s.calls| <= |next.calls|
    && (who.index < |s.calls| ==>
          var c, c' := s.calls[who.index], next.calls[who.index];
          match who
          case ThreadOf(_) => c.phase.Counted? || c' == c.(listed := c'.listed)
          case DispatchOf(_) => c'.launched == c.launched && c'.listed == c.listed && (c.phase.Counted? ==> c' == c))
  }

  lemma StepLeaves(s: State, step: Step, who: Role)
    requires Enabled(s, step) && !Belongs(step, who)
    ensures Left(s, Apply(s, step), who)
  {
  }

  lemma LeftOn(s: State, mid: State, end: State, who: Role)
    requires Left(s, mid, who) && Left(mid, end, who)
    ensures Left(s, end, who)
  {
  }

  lemma {:induction false} OthersLeave(s: State, steps: seq<Step>, end: State, who: Role)
    requires Run(Next, s, steps, end) && Others(steps, who)
    ensures Left(s, end, who)
    decreases |steps|
  {
    hide Apply, Enabled;
    if |steps| > 0 {
      StepLeaves(s, steps[0], who);
      OthersLeave(Apply(s, steps[0]), steps[1..], end, who);
      LeftOn(s, Apply(s, steps[0]), end, who);
    }
  }

  // ---------------------------------------------------------------- the code

  ghost predicate Reached(before: State, steps: seq<Step>, now: State) {
    Inv(before) && Run(Next, before, steps, now) && Inv(now)
  }

  predicate InPhase(s: State, i: nat, phase: Phase) {
    i < |s.calls| && s.calls[i].phase == phase
  }

  lemma StillInPhase(s: State, next: State, i: nat, phase: Phase)
    requires InPhase(s, i, phase) && phase != Counted && Left(s, next, ThreadOf(i))
    ensures InPhase(next, i, phase)
  {
  }

  /** The counter and the flag are the session's own; what the calls have done is history. */
  class Session {
    const tools: set<string>
    var counter: int
    var cancelledAt: Option<nat>
    var time: nat
    ghost var calls: seq<Call>
    ghost var life: Life

    ghost function Model(): State
      reads this
    {
      State(tools, calls, counter, cancelledAt, life, time)
    }

    constructor (tools: set<string>)
      ensures Model() == Initial(tools)
    {
      this.tools, counter, cancelledAt, time, calls, life := tools, 0, None, 0, [], Alive;
    }

    /** What all others do in between; callers know no more than the contract. */
    method Interfere(ghost who: Role) returns (ghost steps: seq<Step>)
      requires Inv(Model())
      modifies this
      ensures Run(Next, old(Model()), steps, Model()) && Others(steps, who)
    {
      steps := [];
    }

    method Pause(ghost who: Role, ghost before: State, ghost steps: seq<Step>) returns (ghost longer: seq<Step>)
      requires Reached(before, steps, Model())
      modifies this
      ensures Reached(before, longer, Model()) && Left(old(Model()), Model(), who) && steps <= longer
    {
      hide Inv, Run, Left;
      ghost var mid := Model();
      ghost var others := Interfere(who);
      OthersLeave(mid, others, Model(), who);
      RunKeepsInv(mid, others, Model());
      RunOn(Next, before, steps, mid, others, Model());
      longer := steps + others;
    }

    /** The step just taken continues the run. */
    ghost method Took(before: State, steps: seq<Step>, mid: State, step: Step) returns (longer: seq<Step>)
      requires Reached(before, steps, mid) && Enabled(mid, step) && Model() == Apply(mid, step)
      ensures Reached(before, longer, Model()) && longer == steps + [step]
    {
      hide Inv, Enabled, Apply;
      StepKeepsInv(mid, step);
      longer := RunFurther(Next, before, steps, mid, step, Model());
    }

    ghost method Acts(i: nat, act: Act)
      requires i < |calls| && CanAct(calls[i], act) && !act.CountDown?
      modifies `calls
      ensures Model() == Apply(old(Model()), Works(i, act)).(time := time)
      ensures calls == old(calls)[i := Advance(old(calls)[i], act, cancelledAt.Some?, time)]
    {
      calls := calls[i := Advance(calls[i], act, cancelledAt.Some?, time)];
    }

    method CancelPendingToolInvocations()
      requires life.Alive?
      modifies `cancelledAt, `time
      ensures Model() == Apply(old(Model()), CancelCalls)
    {
      if cancelledAt.None? {
        cancelledAt := Some(time);
      }
      time := time + 1;
    }

    /** The counting part of a dispatch; false when the event concerns no tool with a handler. */
    method Counts(requestId: string, tool: string) returns (counted: bool)
      requires life.Alive?
      modifies `counter, `calls, `time
      ensures Model() == Apply(old(Model()), Dispatch(requestId, tool))
      ensures counted <==> tool in tools
      ensures counted ==> InPhase(Model(), |old(calls)|, Counted)
      ensures counted ==> calls[|old(calls)|].launched.None? && !calls[|old(calls)|].listed
    {
      counted := tool in tools;
      if counted {
        counter := counter + 1;
        calls := calls + [NewCall(requestId)];
      }
      time := time + 1;
    }

    /** std::async, which may throw. */
    method Launches(ghost i: nat) returns (ok: bool)
      requires InPhase(Model(), i, Counted)
      modifies `calls, `time
      ensures Model() == Apply(old(Model()), Works(i, Launch(ok)))
      ensures i < |calls| && calls[i].launched == Some(ok) && calls[i].listed == old(calls)[i].listed
    {
      ok := *;
      Acts(i, Launch(ok));
      time := time + 1;
    }

    method Enlists(ghost i: nat)
      requires i < |calls| && CanAct(calls[i], Enlist)
      modifies `calls, `time
      ensures Model() == Apply(old(Model()), Works(i, Enlist))
      ensures i < |calls| && calls[i].listed
    {
      Acts(i, Enlist);
      time := time + 1;
    }

    /** The tool branch of dispatch_event with enqueue_background; it throws when no thread can be had. */
    method DispatchTool(requestId: string, tool: string) returns (threw: bool, ghost steps: seq<Step>)
      requires Inv(Model()) && life.Alive?
      modifies this
      ensures Reached(old(Model()), steps, Model())
      ensures |steps| > 0 && steps[0] == Dispatch(requestId, tool)
      ensures tool in tools ==> |old(calls)| < |calls| && calls[|old(calls)|].launched == Some(!threw)
      ensures tool in tools && !threw ==> calls[|old(calls)|].listed
      ensures tool !in tools ==> !threw && |steps| == 1
    {
      hide Apply, Inv, Run;
      ghost var before := Model();
      RunNothing(Next, before);
      ghost var i := |calls|;
      var counted := Counts(requestId, tool);
      steps := Took(before, [], before, Dispatch(requestId, tool));
      threw := false;
      if counted {
        ghost var mid := Model();
        steps := Pause(DispatchOf(i), before, steps);
        mid := Model();
        var ok := Launches(i);
        steps := Took(before, steps, mid, Works(i, Launch(ok)));
        mid := Model();
        steps := Pause(DispatchOf(i), before, steps);
        threw := !ok;
        if ok {
          mid := Model();
          Enlists(i);
          KeepsLaunched(mid, i);
          steps := Took(before, steps, mid, Works(i, Enlist));
        }
      }
    }

    // The thread of call i.

    method Handles(ghost i: nat) returns (outcome: Outcome)
      requires InPhase(Model(), i, Handling)
      modifies `calls, `time
      ensures Model() == Apply(old(Model()), Works(i, HandlerEnds(outcome)))
      ensures InPhase(Model(), i, AfterHandler(outcome))
    {
      outcome := *;
      Acts(i, HandlerEnds(outcome));
      time := time + 1;
    }

    method Looks(ghost i: nat, payload: Payload) returns (cancelled: bool, ghost seen: nat)
      requires InPhase(Model(), i, Answering(payload))
      modifies `calls, `time
      ensures Model() == Apply(old(Model()), Works(i, Look)) && cancelled == cancelledAt.Some?
      ensures InPhase(Model(), i, if cancelled then Leaving else Phase.Sending(payload, seen))
    {
      cancelled := cancelledAt.Some?;
      seen := time;
      Acts(i, Look);
      time := time + 1;
    }

    method Sends(ghost i: nat, payload: Payload, ghost seen: nat) returns (outcome: Outcome)
      requires InPhase(Model(), i, Phase.Sending(payload, seen))
      modifies `calls, `time
      ensures Model() == Apply(old(Model()), Works(i, Send(outcome)))
      ensures InPhase(Model(), i, AfterSend(payload, outcome))
    {
      outcome := *;
      Acts(i, Send(outcome));
      time := time + 1;
    }

    method CountsDown(ghost i: nat)
      requires InPhase(Model(), i, Leaving)
      modifies `calls, `counter, `time
      ensures Model() == Apply(old(Model()), Works(i, CountDown))
      ensures InPhase(Model(), i, Done)
    {
      counter := counter - 1;
      calls := calls[i := calls[i].(phase := Done)];
      time := time + 1;
    }

    /** The lambda `answer`: nothing is sent, and nothing thrown, once the flag is up. */
    method Answer(ghost i: nat, payload: Payload, ghost before: State, ghost steps: seq<Step>)
      returns (outcome: Outcome, ghost longer: seq<Step>)
      requires Reached(before, steps, Model()) && InPhase(Model(), i, Answering(payload))
      modifies this
      ensures Reached(before, longer, Model())
      ensures InPhase(Model(), i, AfterSend(payload, outcome))
    {
      hide Apply, Inv, Run, Left;
      ghost var mid := Model();
      longer := Pause(ThreadOf(i), before, steps);
      StillInPhase(mid, Model(), i, Answering(payload));
      mid := Model();
      var cancelled;
      ghost var seen;
      cancelled, seen := Looks(i, payload);
      longer := Took(before, longer, mid, Works(i, Look));
      if cancelled {
        return Returns, longer;
      }
      mid := Model();
      longer := Pause(ThreadOf(i), before, longer);
      StillInPhase(mid, Model(), i, Phase.Sending(payload, seen));
      mid := Model();
      outcome := Sends(i, payload, seen);
      longer := Took(before, longer, mid, Works(i, Send(outcome)));
    }

    /**
      The body of the thread, exceptions and all: only what is not a std::exception,
      from the handler or from sending its result, gets past the count down.
     */
    method Execute(ghost i: nat) returns (escaped: bool, ghost steps: seq<Step>)
      requires Inv(Model()) && InPhase(Model(), i, Handling)
      modifies this
      ensures Reached(old(Model()), steps, Model()) && InPhase(Model(), i, if escaped then Lost else Done)
    {
      hide Apply, Inv, Run, Left;
      ghost var before := Model();
      RunNothing(Next, before);
      steps := Pause(ThreadOf(i), before, []);
      StillInPhase(before, Model(), i, Handling);
      ghost var mid := Model();
      var outcome := Handles(i);
      steps := Took(before, steps, mid, Works(i, HandlerEnds(outcome)));
      if outcome.Returns? {
        outcome, steps := Answer(i, ResultAnswer, before, steps);
      }
      if outcome.Escapes? {
        return true, steps;
      }
      if outcome.Throws? {
        outcome, steps := Answer(i, ErrorAnswer, before, steps);
      }
      mid := Model();
      steps := Pause(ThreadOf(i), before, steps);
      StillInPhase(mid, Model(), i, Leaving);
      mid := Model();
      CountsDown(i);
      steps := Took(before, steps, mid, Works(i, CountDown));
      return false, steps;
    }
  }

  function AfterHandler(outcome: Outcome): Phase {
    match outcome
    case Returns => Answering(ResultAnswer)
    case Throws => Answering(ErrorAnswer)
    case Escapes => Lost
  }

  function AfterSend(payload: Payload, outcome: Outcome): Phase {
    if payload.ErrorAnswer? || outcome.Returns? then Leaving
    else if outcome.Throws? then Answering(ErrorAnswer)
    else Lost
  }

  lemma KeepsLaunched(s: State, i: nat)
    requires Enabled(s, Works(i, Enlist))
    ensures Apply(s, Works(i, Enlist)).calls[i].launched == s.calls[i].launched
  {
  }

  // ------------------------------------------------------- what runs show

  /**
    The counter is the number of calls dispatched and not finished, in every
    interleaving, exactly as long as none got past the count down.
   */
  lemma CounterIsExact(tools: set<string>, steps: seq<Step>, end: State)
    requires Run(Next, Initial(tools), steps, end)
    ensures end.counter >= Count(end.calls, Open)
    ensures end.counter == Count(end.calls, Open) <==> forall i | 0 <= i < |end.calls| :: !Cause(end.calls[i])
  {
    RunKeepsInv(Initial(tools), steps, end);
    CountSplits(end.calls);
    CountZero(end.calls, (c: Call) => c.phase.Lost?);
    assert forall i | 0 <= i < |end.calls| :: CallInv(end.calls[i], end.cancelledAt, end.time);
  }

  /** Once the destructor has waited, no thread can take another step and the counter is back at zero. */
  lemma DestructionDrains(tools: set<string>, steps: seq<Step>, end: State)
    requires Run(Next, Initial(tools), steps, end) && end.life.Gone?
    ensures forall i, act | 0 <= i < |end.calls| :: !CanAct(end.calls[i], act)
    ensures end.counter == 0 <==> forall i | 0 <= i < |end.calls| :: !Cause(end.calls[i])
  {
    RunKeepsInv(Initial(tools), steps, end);
    CounterIsExact(tools, steps, end);
    CountZero(end.calls, Open);
    forall i, act | 0 <= i < |end.calls|
      ensures !CanAct(end.calls[i], act)
    {
      var c := end.calls[i];
      assert CallInv(c, end.cancelledAt, end.time) && Ended(c) && !InDispatch(c);
    }
  }

  /** Time counts the steps, so that a time says which step it was. */
  lemma TimeStep(s: State, step: Step, next: State)
    requires Next(s, step) == Some(next)
    ensures next.time == s.time + 1
    ensures next.cancelledAt == if s.cancelledAt.None? && step == CancelCalls then Some(s.time) else s.cancelledAt
  {
  }

  /** From the steps alone: where the first cancellation is. */
  predicate FirstCancel(steps: seq<Step>, at: Option<nat>) {
    match at
    case None => CancelCalls !in steps
    case Some(k) => k < |steps| && steps[k] == CancelCalls && CancelCalls !in steps[..k]
  }

  lemma {:induction false} CancelledInSteps(tools: set<string>, steps: seq<Step>, end: State)
    requires Run(Next, Initial(tools), steps, end)
    ensures end.time == |steps| && FirstCancel(steps, end.cancelledAt)
    decreases |steps|
  {
    hide Run, Next;
    if |steps| == 0 {
      RunNothingEnds(Next, Initial(tools), steps, end);
    } else {
      var n := |steps| - 1;
      var mid := RunLast(Next, Initial(tools), steps, end);
      CancelledInSteps(tools, steps[..n], mid);
      TimeStep(mid, steps[n], end);
      CancelNext(steps, mid.cancelledAt, end.cancelledAt);
    }
  }

  lemma CancelNext(steps: seq<Step>, before: Option<nat>, after: Option<nat>)
    requires |steps| > 0 && FirstCancel(steps[..|steps| - 1], before)
    requires after == if before.None? && steps[|steps| - 1] == CancelCalls then Some(|steps| - 1) else before
    ensures FirstCancel(steps, after)
  {
    var n := |steps| - 1;
    assert steps == steps[..n] + [steps[n]];
    if before.Some? {
      assert steps[..n][..before.value] == steps[..before.value];
    }
  }

  /** The looks that let an attempt through are steps of its own thread. */
  predicate LooksInSteps(c: Call, steps: seq<Step>, i: nat) {
    && (c.phase.Sending? ==> c.phase.checkedAt < |steps| && steps[c.phase.checkedAt] == Works(i, Look))
    && (forall a | a in c.attempts :: a.checkedAt < |steps| && steps[a.checkedAt] == Works(i, Look))
  }

  lemma LookStep(s: State, step: Step, next: State, i: nat, steps: seq<Step>)
    requires Next(s, step) == Some(next) && s.time == |steps| && i < |next.calls|
    requires i < |s.calls| ==> LooksInSteps(s.calls[i], steps, i)
    ensures LooksInSteps(next.calls[i], steps + [step], i)
  {
  }

  lemma {:induction false} LooksAreSteps(tools: set<string>, steps: seq<Step>, end: State, i: nat)
    requires Run(Next, Initial(tools), steps, end) && i < |end.calls|
    ensures LooksInSteps(end.calls[i], steps, i)
    decreases |steps|
  {
    hide Run, Next, LooksInSteps;
    if |steps| == 0 {
      RunNothingEnds(Next, Initial(tools), steps, end);
      assert false;
    } else {
      var n := |steps| - 1;
      var mid := RunLast(Next, Initial(tools), steps, end);
      CancelledInSteps(tools, steps[..n], mid);
      if i < |mid.calls| {
        LooksAreSteps(tools, steps[..n], mid, i);
      }
      assert steps == steps[..n] + [steps[n]];
      LookStep(mid, steps[n], end, i, steps[..n]);
    }
  }

  /** Every attempt of every call, in every run: its look at the flag came before any cancellation. */
  lemma AttemptsInOrder(tools: set<string>, steps: seq<Step>, end: State, i: nat)
    requires Run(Next, Initial(tools), steps, end) && i < |end.calls|
    ensures GoodAttempts(end.calls[i])
    ensures forall a | a in end.calls[i].attempts ::
              && a.checkedAt < |steps| && steps[a.checkedAt] == Works(i, Look) && CancelCalls !in steps[..a.checkedAt]
    ensures end.calls[i].phase.Done? && CancelCalls !in steps ==> Spoken(end.calls[i])
  {
    RunKeepsInv(Initial(tools), steps, end);
    assert CallInv(end.calls[i], end.cancelledAt, end.time);
    LooksAreSteps(tools, steps, end, i);
    CancelledInSteps(tools, steps, end);
    forall a | a in end.calls[i].attempts
      ensures a.checkedAt < |steps| && CancelCalls !in steps[..a.checkedAt]
    {
      assert Before(a.checkedAt, end.cancelledAt);
      if end.cancelledAt.Some? {
        assert steps[..end.cancelledAt.value][..a.checkedAt] == steps[..a.checkedAt];
      }
    }
  }

  /** Launching works, and handlers and sending either return or throw a std::exception. */
  predicate Ordinary(steps: seq<Step>) {
    forall i | 0 <= i < |steps| && steps[i].Works? ::
      && steps[i].act != Launch(false) && steps[i].act != HandlerEnds(Escapes) && steps[i].act != Send(Escapes)
  }

  lemma OrdinaryStep(s: State, step: Step, next: State)
    requires Next(s, step) == Some(next) && Ordinary([step])
    requires forall i | 0 <= i < |s.calls| :: !s.calls[i].phase.Lost?
    ensures forall i | 0 <= i < |next.calls| :: !next.calls[i].phase.Lost?
  {
    assert step.Works? ==> [step][0].act == step.act;
  }

  lemma {:induction false} NoneLost(tools: set<string>, steps: seq<Step>, end: State)
    requires Run(Next, Initial(tools), steps, end) && Ordinary(steps)
    ensures forall i | 0 <= i < |end.calls| :: !end.calls[i].phase.Lost?
    decreases |steps|
  {
    hide Run, Next;
    if |steps| == 0 {
      RunNothingEnds(Next, Initial(tools), steps, end);
    } else {
      var n := |steps| - 1;
      var mid := RunLast(Next, Initial(tools), steps, end);
      NoneLost(tools, steps[..n], mid);
      OrdinaryStep(mid, steps[n], end);
    }
  }

  /** For such handlers the counter is exact in every interleaving, and zero once the destructor has waited. */
  lemma OrdinaryCounterIsExact(tools: set<string>, steps: seq<Step>, end: State)
    requires Run(Next, Initial(tools), steps, end) && Ordinary(steps)
    ensures end.counter == Count(end.calls, (c: Call) => !c.phase.Done?)
    ensures end.life.Gone? ==> end.counter == 0
  {
    RunKeepsInv(Initial(tools), steps, end);
    NoneLost(tools, steps, end);
    CountSame(end.calls, Held, (c: Call) => !c.phase.Done?);
    if end.life.Gone? {
      CountZero(end.calls, Held);
    }
  }

  lemma {:induction false} CountSame(calls: seq<Call>, f: Call -> bool, g: Call -> bool)
    requires forall c :: f(c) == g(c)
    ensures Count(calls, f) == Count(calls, g)
  {
    if |calls| > 0 {
      CountSame(calls[..|calls| - 1], f, g);
    }
  }

  /** A thread that cannot be launched leaves the counter at one for good. */
  lemma CounterStaysHigh()
    ensures exists end ::
              && Run(Next, Initial({"tool"}),
                  [Dispatch("1", "tool"), Works(0, Launch(false)), DestructorSwaps, DestructorWaited], end)
              && end.life.Gone? && end.counter == 1
  {
    hide Run;
    var s0 := Initial({"tool"});
    var s1 := Apply(s0, Dispatch("1", "tool"));
    var s2 := Apply(s1, Works(0, Launch(false)));
    var s3 := Apply(s2, DestructorSwaps);
    var s4 := Apply(s3, DestructorWaited);
    RunOne(Next, s0, Dispatch("1", "tool"));
    var steps := RunFurther(Next, s0, [Dispatch("1", "tool")], s1, Works(0, Launch(false)), s2);
    steps := RunFurther(Next, s0, steps, s2, DestructorSwaps, s3);
    steps := RunFurther(Next, s0, steps, s3, DestructorWaited, s4);
    assert steps == [Dispatch("1", "tool"), Works(0, Launch(false)), DestructorSwaps, DestructorWaited];
  }
}
