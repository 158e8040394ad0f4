/**
  The client's registry of sessions and its connection state. Every step below is
  one critical section of the client's mutex, so any interleaving of starting,
  stopping, creating, resuming and deleting is a run of these steps.
 */
module SessionRegistry {
  import opened Basics

  const MIN_PROTOCOL := 2
  const SDK_PROTOCOL := 3

  predicate Supported(version: int) {
    MIN_PROTOCOL <= version <= SDK_PROTOCOL
  }

  // ------------------------------------------------------------- the machine

  datatype Conn = Disconnected | Connecting | Connected | Error

  datatype Rpc = NoRpc | Idle | Running

  /** How far the call that made a session has come; `Settled` is past its try block. */
  datatype Phase = Made | Registered | Settled | FailedInTry | FailedLate | Finished

  datatype Session = Session(id: string, phase: Phase, cancelled: bool)

  /** `sessions` has every session object ever made; the registry refers to it by index. */
  datatype State = State(
    conn: Conn,
    rpc: Rpc,
    version: Option<int>,
    registry: map<string, nat>,
    sessions: seq<Session>)

  /** How an attempt to start ends; a refusal comes after the version was agreed on. */
  datatype Attempt =
    | NoConnection(rpcMade: bool)
    | NoVersion
    | Refused(version: int)
    | Good(version: int)

  datatype Step =
    | Start(attempt: Attempt)
    | Stop
    | Make(id: string)
    | Register(k: nat)
    | Answer(k: nat, returned: string)
    | FailInTry(k: nat)
    | FailLate(k: nat)
    | Finish(k: nat)
    | Resume(id: string)
    | Delete(id: string)

  const INIT := State(Disconnected, NoRpc, None, map[], [])

  predicate InPhase(s: State, k: nat, phase: Phase) {
    k < |s.sessions| && s.sessions[k].phase == phase
  }

  predicate Enabled(s: State, step: Step) {
    match step
    case Start(Refused(v)) => Supported(v)
    case Start(Good(v)) => Supported(v)
    case Register(k) => InPhase(s, k, Made)
    case Answer(k, _) => InPhase(s, k, Registered)
    case FailInTry(k) => InPhase(s, k, Registered)
    case FailLate(k) => InPhase(s, k, Settled)
    case Finish(k) => InPhase(s, k, Settled)
    case _ => true
  }

  function Begin(s: State, attempt: Attempt): State {
    match attempt
    case NoConnection(rpcMade) => s.(conn := Error, rpc := if rpcMade then Idle else s.rpc)
    case NoVersion => s.(conn := Error, rpc := Running)
    case Refused(v) => s.(conn := Error, rpc := Running, version := Some(v))
    case Good(v) => s.(conn := Connected, rpc := Running, version := Some(v))
  }

  function Put(s: State, k: nat, session: Session): State
    requires k < |s.sessions|
  {
    s.(sessions := s.sessions[k := session])
  }

  /** The sessions whose index is in `which` will not answer tool calls any more. */
  function Cancelled(sessions: seq<Session>, which: set<nat>): seq<Session> {
    seq(|sessions|,
        i requires 0 <= i < |sessions| => if i in which then sessions[i].(cancelled := true) else sessions[i])
  }

  function Apply(s: State, step: Step): State
    requires Enabled(s, step)
  {
    match step
    case Start(attempt) => if s.conn.Connected? then s else Begin(s, attempt)
    case Stop => State(Disconnected, NoRpc, s.version, map[], Cancelled(s.sessions, s.registry.Values))
    case Make(id) => s.(sessions := s.sessions + [Session(id, Made, false)])
    case Register(k) =>
      Put(s, k, s.sessions[k].(phase := Registered)).(registry := s.registry[s.sessions[k].id := k])
    case Answer(k, returned) =>
      var id := s.sessions[k].id;
      if returned == id then Put(s, k, s.sessions[k].(phase := Settled))
      else Put(s, k, s.sessions[k].(id := returned, phase := Settled)).(registry := (s.registry - {id})[returned := k])
    case FailInTry(k) =>
      Put(s, k, s.sessions[k].(phase := FailedInTry)).(registry := s.registry - {s.sessions[k].id})
    case FailLate(k) => Put(s, k, s.sessions[k].(phase := FailedLate))
    case Finish(k) => Put(s, k, s.sessions[k].(phase := Finished))
    case Resume(id) =>
      s.(sessions := s.sessions + [Session(id, Settled, false)], registry := s.registry[id := |s.sessions|])
    case Delete(id) => s.(registry := s.registry - {id})
  }

  function Next(s: State, step: Step): Option<State> {
    if Enabled(s, step) then Some(Apply(s, step)) else None
  }

  // ---------------------------------------------------------- the invariant

  predicate IsRegistered(s: State, k: nat) {
    exists key :: key in s.registry && s.registry[key] == k
  }

  predicate Inv(s: State) {
    && (forall key | key in s.registry ::
          && s.registry[key] < |s.sessions|
          && s.sessions[s.registry[key]].id == key
          && !s.sessions[s.registry[key]].phase.Made?
          && !s.sessions[s.registry[key]].phase.FailedInTry?)
    && (s.conn.Connected? ==> s.rpc.Running? && s.version.Some? && Supported(s.version.value))
  }

  lemma StepKeepsInv(s: State, step: Step)
    requires Inv(s) && Enabled(s, step)
    ensures Inv(Apply(s, step))
  {
  }

  lemma RunKeepsInv(s: State, steps: seq<Step>, end: State)
    requires Inv(s) && Run(Next, s, steps, end)
    ensures Inv(end)
  {
    forall a: State, step: Step | Inv(a) && Next(a, step).Some?
      ensures Inv(Next(a, step).value)
    {
      StepKeepsInv(a, step);
    }
    RunKeeps(Next, Inv, s, steps, end);
  }

  // ---------------------------------------------------------------- the code

  /** What the server says when asked for its version; `Unhandled` is an unknown method. */
  datatype Reply = Unhandled | Fails | Reports(version: Option<int>)

  datatype Outcome = NotConnected | Failed | Late | Created

  class Client {
    var conn: Conn
    var rpc: Rpc
    var version: Option<int>
    var registry: map<string, nat>
    var sessions: seq<Session>
    ghost var replies: seq<Reply>

    ghost function Model(): State
      reads this
    {
      State(conn, rpc, version, registry, sessions)
    }

    constructor ()
      ensures Model() == INIT
    {
      conn, rpc, version, registry, sessions, replies := Disconnected, NoRpc, None, map[], [], [];
    }

    /**
      What other threads do while this one does not hold the lock: anything but the
      steps of its own session. Callers know no more than the contract.
     */
    method Interfere(k: nat) returns (ghost steps: seq<Step>)
      requires Inv(Model())
      modifies this
      ensures Run(Next, old(Model()), steps, Model()) && Foreign(steps, k)
    {
      steps := [];
    }

    method Ask() returns (reply: Reply)
      modifies `replies
      ensures replies == old(replies) + [reply]
    {
      reply := *;
      replies := replies + [reply];
    }

    /** connect, then ping if the server does not know connect, then ping if there is no version yet. */
    method VerifyProtocolVersion() returns (agreed: Option<int>)
      modifies `version, `replies
      ensures |old(replies)| < |replies| <= |old(replies)| + 3 && old(replies) <= replies
      ensures AskedEnough(replies[|old(replies)|..])
      ensures forall v :: agreed == Some(v) <==> replies[|replies| - 1] == Reports(Some(v)) && (v == 2 || v == 3)
      ensures version == if agreed.Some? then agreed else old(version)
    {
      var reply := Ask();
      if reply.Unhandled? {
        reply := Ask();
      }
      if reply == Reports(None) {
        reply := Ask();
      }
      agreed := None;
      if reply.Reports? && reply.version.Some? {
        if MIN_PROTOCOL <= reply.version.value <= SDK_PROTOCOL {
          agreed := reply.version;
          version := agreed;
        }
      }
    }

    /** start() holds the lock from beginning to end. */
    method StartConnection() returns (ok: bool, ghost attempt: Attempt)
      modifies this
      ensures Next(old(Model()), Start(attempt)) == Some(Model())
      ensures ok <==> conn.Connected?
    {
      attempt := NoConnection(false);
      if conn.Connected? {
        return true, attempt;
      }
      conn := Connecting;
      var connected: bool, made: bool := *, *;
      if !connected {
        if made {
          rpc := Idle;
        }
        conn := Error;
        return false, NoConnection(made);
      }
      rpc := Running;
      var agreed := VerifyProtocolVersion();
      if agreed.None? {
        conn := Error;
        return false, NoVersion;
      }
      var configured: bool := *;
      if !configured {
        conn := Error;
        return false, Refused(agreed.value);
      }
      conn := Connected;
      return true, Good(agreed.value);
    }

    /** The critical section of stop() and force_stop(): cancel every session's tool calls, let go of everything. */
    method StopConnection()
      requires Inv(Model())
      modifies this
      ensures Next(old(Model()), Stop) == Some(Model())
    {
      var keys := registry.Keys;
      ghost var done: set<nat> := {};
      while keys != {}
        invariant keys <= registry.Keys
        invariant done == set key | key in registry && key !in keys :: registry[key]
        invariant sessions == Cancelled(old(sessions), done)
        invariant conn == old(conn) && rpc == old(rpc) && version == old(version) && registry == old(registry)
        decreases keys
      {
        var key :| key in keys;
        var k := registry[key];
        sessions := sessions[k := sessions[k].(cancelled := true)];
        done := done + {k};
        keys := keys - {key};
      }
      assert done == registry.Values;
      registry, rpc, conn := map[], NoRpc, Disconnected;
    }

    /** The state is read without the lock: nothing is known of it once this returns. */
    method EnsureConnected(autoStart: bool) returns (ok: bool, ghost steps: seq<Step>)
      modifies this
      ensures Run(Next, old(Model()), steps, Model())
      ensures sessions == old(sessions) && registry == old(registry)
      ensures ok <==> Connects(old(conn), autoStart, steps)
      ensures if old(conn).Connected? || !autoStart then steps == [] else |steps| == 1 && steps[0].Start?
    {
      ghost var before := Model();
      if conn.Connected? || !autoStart {
        return conn.Connected?, [];
      }
      ghost var attempt;
      ok, attempt := StartConnection();
      steps := RunFurther(Next, before, [], before, Start(attempt), Model());
    }

    /**
      `answer` is the id the server gives the session, or nothing when the call
      fails, and `rest` says whether what follows the try block goes well.
     */
    method CreateSession(id: string, autoStart: bool, answer: Option<string>, rest: bool)
      returns (outcome: Outcome, k: nat, ghost steps: seq<Step>)
      requires Inv(Model())
      modifies this
      ensures Run(Next, old(Model()), steps, Model())
      ensures outcome.NotConnected? <==> !Connects(old(conn), autoStart, steps)
      ensures !outcome.NotConnected? ==> (outcome.Failed? <==> answer.None?)
      ensures (outcome.Created? ==> rest) && (outcome.Late? ==> !rest)
      ensures outcome.NotConnected? ==> sessions == old(sessions) && registry == old(registry)
      ensures !outcome.NotConnected? ==> k >= |old(sessions)|
      ensures outcome.Failed? ==> InPhase(Model(), k, FailedInTry) && sessions[k].id == id
      ensures outcome.Late? ==> InPhase(Model(), k, FailedLate) && sessions[k].id == answer.value
      ensures outcome.Created? ==> InPhase(Model(), k, Finished) && sessions[k].id == answer.value
    {
      hide Next, Apply, Enabled, Inv, Run;
      k := 0;
      ghost var before := Model();
      var ok: bool;
      ok, steps := EnsureConnected(autoStart);
      if !ok {
        return NotConnected, k, steps;
      }
      ghost var mid := Model();
      k := MakeSession(id);
      steps := RunFurther(Next, before, steps, mid, Make(id), Model());
      steps := TryBlock(k, id, answer, before, steps);
      if answer.None? {
        return Failed, k, steps;
      }
      steps := AfterTry(k, rest, before, steps);
      return if rest then Created else Late, k, steps;
    }

    /** Register the session, call the server, and keep or discard the entry. */
    method TryBlock(k: nat, id: string, answer: Option<string>, ghost before: State, ghost steps: seq<Step>)
      returns (ghost longer: seq<Step>)
      requires Inv(before) && Run(Next, before, steps, Model()) && InPhase(Model(), k, Made) && sessions[k].id == id
      modifies this
      ensures Run(Next, before, longer, Model()) && steps <= longer
      ensures InPhase(Model(), k, if answer.Some? then Settled else FailedInTry)
      ensures sessions[k].id == if answer.Some? then answer.value else id
    {
      hide Next, Apply, Enabled, Inv, Run;
      longer := Pause(k, before, steps);
      ghost var mid := Model();
      Insert(k, id);
      longer := RunFurther(Next, before, longer, mid, Register(k), Model());
      longer := Pause(k, before, longer);

      mid := Model();
      if answer.None? {
        Discard(k, id);
        longer := RunFurther(Next, before, longer, mid, FailInTry(k), Model());
      } else {
        Rekey(k, id, answer.value);
        longer := RunFurther(Next, before, longer, mid, Answer(k, answer.value), Model());
      }
    }

    method AfterTry(k: nat, rest: bool, ghost before: State, ghost steps: seq<Step>)
      returns (ghost longer: seq<Step>)
      requires Inv(before) && Run(Next, before, steps, Model()) && InPhase(Model(), k, Settled)
      modifies this
      ensures Run(Next, before, longer, Model()) && steps <= longer
      ensures InPhase(Model(), k, if rest then Finished else FailedLate) && sessions[k].id == old(sessions)[k].id
    {
      hide Next, Apply, Enabled, Inv, Run;
      longer := Pause(k, before, steps);
      ghost var mid := Model();
      Conclude(k, rest);
      longer := RunFurther(Next, before, longer, mid, if rest then Finish(k) else FailLate(k), Model());
    }

    method MakeSession(id: string) returns (k: nat)
      modifies `sessions
      ensures Next(old(Model()), Make(id)) == Some(Model())
      ensures k == |old(sessions)| && InPhase(Model(), k, Made) && sessions[k].id == id
    {
      k := |sessions|;
      sessions := sessions + [Session(id, Made, false)];
    }

    method Insert(k: nat, id: string)
      requires InPhase(Model(), k, Made) && sessions[k].id == id
      modifies `sessions, `registry
      ensures Next(old(Model()), Register(k)) == Some(Model())
      ensures InPhase(Model(), k, Registered) && sessions[k].id == id
    {
      registry := registry[id := k];
      sessions := sessions[k := sessions[k].(phase := Registered)];
    }

    /** The end of the try block: the server may have chosen another id. */
    method Rekey(k: nat, id: string, returned: string)
      requires InPhase(Model(), k, Registered) && sessions[k].id == id
      modifies `sessions, `registry
      ensures Next(old(Model()), Answer(k, returned)) == Some(Model())
      ensures InPhase(Model(), k, Settled) && sessions[k].id == returned
    {
      ghost var was := Model();
      if returned != id {
        registry := registry - {id};
        sessions := sessions[k := sessions[k].(id := returned)];
        registry := registry[returned := k];
      }
      sessions := sessions[k := sessions[k].(phase := Settled)];
      assert Model() == Apply(was, Answer(k, returned));
    }

    /** The catch block. */
    method Discard(k: nat, id: string)
      requires InPhase(Model(), k, Registered) && sessions[k].id == id
      modifies `sessions, `registry
      ensures Next(old(Model()), FailInTry(k)) == Some(Model())
      ensures InPhase(Model(), k, FailedInTry) && sessions[k].id == id
    {
      registry := registry - {id};
      sessions := sessions[k := sessions[k].(phase := FailedInTry)];
    }

    /** After the try block: capabilities are read and interest is registered, and either may throw. */
    method Conclude(k: nat, ok: bool)
      requires InPhase(Model(), k, Settled)
      modifies `sessions
      ensures Next(old(Model()), if ok then Finish(k) else FailLate(k)) == Some(Model())
      ensures InPhase(Model(), k, if ok then Finished else FailedLate) && sessions[k].id == old(sessions)[k].id
    {
      sessions := sessions[k := sessions[k].(phase := if ok then Finished else FailedLate)];
    }

    /** Here the session is made only once the server has named it. */
    method ResumeSession(autoStart: bool, answer: Option<string>, rest: bool)
      returns (outcome: Outcome, k: nat, ghost steps: seq<Step>)
      requires Inv(Model())
      modifies this
      ensures Run(Next, old(Model()), steps, Model())
      ensures outcome.NotConnected? <==> !Connects(old(conn), autoStart, steps)
      ensures !outcome.NotConnected? ==> (outcome.Failed? <==> answer.None?)
      ensures (outcome.Created? ==> rest) && (outcome.Late? ==> !rest)
      ensures outcome.NotConnected? ==> sessions == old(sessions) && registry == old(registry)
      ensures outcome.Late? ==>
                k >= |old(sessions)| && InPhase(Model(), k, FailedLate) && sessions[k].id == answer.value
      ensures outcome.Created? ==>
                k >= |old(sessions)| && InPhase(Model(), k, Finished) && sessions[k].id == answer.value
    {
      hide Next, Apply, Enabled, Inv, Run;
      k := 0;
      ghost var before := Model();
      var ok: bool;
      ok, steps := EnsureConnected(autoStart);
      if !ok {
        return NotConnected, k, steps;
      }
      ghost var mid := Model();
      RunKeepsInv(before, steps, mid);
      ghost var others := Interfere(|sessions|);
      RunOn(Next, before, steps, mid, others, Model());
      steps := steps + others;
      RunOnlyAdds(before, steps, Model());
      if answer.None? {
        return Failed, k, steps;
      }
      mid := Model();
      k := Adopt(answer.value);
      steps := RunFurther(Next, before, steps, mid, Resume(answer.value), Model());
      steps := AfterTry(k, rest, before, steps);
      return if rest then Created else Late, k, steps;
    }

    method Adopt(returned: string) returns (k: nat)
      modifies `sessions, `registry
      ensures Next(old(Model()), Resume(returned)) == Some(Model())
      ensures k == |old(sessions)| && InPhase(Model(), k, Settled) && sessions[k].id == returned
    {
      k := |sessions|;
      sessions := sessions + [Session(returned, Settled, false)];
      registry := registry[returned := k];
    }

    /** The lock is free for a while in the middle of the call that makes session k. */
    method Pause(k: nat, ghost before: State, ghost steps: seq<Step>) returns (ghost longer: seq<Step>)
      requires Inv(before) && Run(Next, before, steps, Model()) && k < |sessions|
      modifies this
      ensures Run(Next, before, longer, Model())
      ensures k < |sessions| && sessions[k].id == old(sessions[k].id) && sessions[k].phase == old(sessions[k].phase)
      ensures steps <= longer
    {
      ghost var mid := Model();
      RunKeepsInv(before, steps, mid);
      ghost var others := Interfere(k);
      RunOn(Next, before, steps, mid, others, Model());
      ForeignKeeps(mid, others, Model(), k);
      return steps + others;
    }

    /** `answer` is whether the server reports success. */
    method DeleteSession(id: string, answer: bool) returns (ok: bool, ghost steps: seq<Step>)
      requires Inv(Model())
      modifies this
      ensures Run(Next, old(Model()), steps, Model())
      ensures ok <==> old(conn).Connected? && answer
      ensures ok ==> |steps| > 0 && steps[|steps| - 1] == Delete(id) && id !in registry
      ensures !old(conn).Connected? ==> steps == []
    {
      steps := [];
      if !conn.Connected? {
        return false, steps;
      }
      ghost var before := Model();
      steps := Interfere(|sessions|);
      ok := answer;
      if ok {
        ghost var mid := Model();
        registry := registry - {id};
        steps := RunFurther(Next, before, steps, mid, Delete(id), Model());
      }
    }
  }

  /** A call goes on when the client was connected or starting it went well. */
  predicate Connects(conn: Conn, autoStart: bool, steps: seq<Step>) {
    conn.Connected? || (autoStart && |steps| > 0 && steps[0].Start? && steps[0].attempt.Good?)
  }

  lemma StepOnlyAdds(s: State, step: Step)
    requires Enabled(s, step)
    ensures |s.sessions| <= |Apply(s, step).sessions|
  {
  }

  lemma {:induction false} RunOnlyAdds(s: State, steps: seq<Step>, end: State)
    requires Run(Next, s, steps, end)
    ensures |s.sessions| <= |end.sessions|
    decreases |steps|
  {
    hide Apply, Enabled;
    if |steps| > 0 {
      StepOnlyAdds(s, steps[0]);
      RunOnlyAdds(Apply(s, steps[0]), steps[1..], end);
    }
  }

  /** Asked again after an unknown method, and once more after a report without a version. */
  predicate AskedEnough(replies: seq<Reply>) {
    && |replies| > 0
    && var first := if replies[0].Unhandled? then 1 else 0;
    && |replies| > first
    && |replies| == if replies[first] == Reports(None) then first + 2 else first + 1
  }

  /** None of the steps belongs to the call that makes session k. */
  predicate Foreign(steps: seq<Step>, k: nat) {
    forall i | 0 <= i < |steps| :: !Owned(steps[i], k)
  }

  predicate Owned(step: Step, k: nat) {
    match step
    case Register(j) => j == k
    case Answer(j, _) => j == k
    case FailInTry(j) => j == k
    case FailLate(j) => j == k
    case Finish(j) => j == k
    case _ => false
  }

  lemma ForeignStep(s: State, step: Step, k: nat)
    requires Enabled(s, step) && !Owned(step, k) && k < |s.sessions|
    ensures k < |Apply(s, step).sessions|
    ensures Apply(s, step).sessions[k].id == s.sessions[k].id && Apply(s, step).sessions[k].phase == s.sessions[k].phase
  {
  }

  lemma {:induction false} ForeignKeeps(s: State, steps: seq<Step>, end: State, k: nat)
    requires Run(Next, s, steps, end) && Foreign(steps, k) && k < |s.sessions|
    ensures k < |end.sessions| && end.sessions[k].id == s.sessions[k].id && end.sessions[k].phase == s.sessions[k].phase
    decreases |steps|
  {
    hide Apply, Enabled;
    if |steps| > 0 {
      ForeignStep(s, steps[0], k);
      ForeignKeeps(Apply(s, steps[0]), steps[1..], end, k);
    }
  }

  // ------------------------------------------------------------ whole runs

  /** Each key leads to the session whose own id it is, so a session has at most one entry. */
  lemma KeysAreOwnIds(steps: seq<Step>, end: State)
    requires Run(Next, INIT, steps, end)
    ensures forall key | key in end.registry ::
        end.registry[key] < |end.sessions| && end.sessions[end.registry[key]].id == key
    ensures forall a, b | a in end.registry && b in end.registry && end.registry[a] == end.registry[b] :: a == b
  {
    RunKeepsInv(INIT, steps, end);
  }

  /** Connected means a running RPC client and a version both sides speak. */
  lemma ConnectedIsLive(steps: seq<Step>, end: State)
    requires Run(Next, INIT, steps, end) && end.conn.Connected?
    ensures end.rpc.Running? && end.version.Some? && Supported(end.version.value)
  {
    RunKeepsInv(INIT, steps, end);
  }

  predicate Over(phase: Phase) {
    phase.FailedInTry? || phase.FailedLate? || phase.Finished?
  }

  /** A session that is out of the registry, and whose making is over, never returns to it. */
  lemma {:induction false} NeverComesBack(s: State, steps: seq<Step>, end: State, k: nat)
    requires Inv(s) && Run(Next, s, steps, end) && k < |s.sessions| && Over(s.sessions[k].phase) && !IsRegistered(s, k)
    ensures !IsRegistered(end, k)
    decreases |steps|
  {
    if |steps| > 0 {
      StepKeepsInv(s, steps[0]);
      NotBackInOneStep(s, steps[0], k);
      NeverComesBack(Apply(s, steps[0]), steps[1..], end, k);
    }
  }

  lemma NotBackInOneStep(s: State, step: Step, k: nat)
    requires Inv(s) && Enabled(s, step) && k < |s.sessions| && Over(s.sessions[k].phase) && !IsRegistered(s, k)
    ensures k < |Apply(s, step).sessions| && Over(Apply(s, step).sessions[k].phase) && !IsRegistered(Apply(s, step), k)
  {
    var next := Apply(s, step);
    forall key | key in next.registry
      ensures next.registry[key] != k
    {
      assert key in s.registry ==> s.registry[key] != k;
    }
  }

  /** A create call that fails inside its try block leaves nothing behind, then or later. */
  lemma FailedIsGone(steps: seq<Step>, end: State, k: nat)
    requires Run(Next, INIT, steps, end) && InPhase(end, k, FailedInTry)
    ensures !IsRegistered(end, k)
  {
    RunKeepsInv(INIT, steps, end);
  }

  /**
    A create call that fails leaves its session registered exactly when it fails
    after the try block and nobody has taken the entry away in the meantime.
   */
  lemma FailureLeavesBehind(s: State, k: nat, late: bool)
    requires Inv(s) && Enabled(s, if late then FailLate(k) else FailInTry(k))
    ensures var next := Apply(s, if late then FailLate(k) else FailInTry(k));
            IsRegistered(next, k) <==> late && s.sessions[k].id in s.registry && s.registry[s.sessions[k].id] == k
  {
    var next := Apply(s, if late then FailLate(k) else FailInTry(k));
    if late {
      assert next.registry == s.registry;
    } else {
      StepKeepsInv(s, FailInTry(k));
    }
  }

  /** The smallest run in which the session of a failed create call stays registered. */
  lemma LateFailureRegistered()
    ensures exists steps, end :: Run(Next, INIT, steps, end) && InPhase(end, 0, FailedLate) && IsRegistered(end, 0)
  {
    var s1 := Apply(INIT, Make("a"));
    var s2 := Apply(s1, Register(0));
    var s3 := Apply(s2, Answer(0, "a"));
    var s4 := Apply(s3, FailLate(0));
    var steps := RunFurther(Next, INIT, [], INIT, Make("a"), s1);
    steps := RunFurther(Next, INIT, steps, s1, Register(0), s2);
    steps := RunFurther(Next, INIT, steps, s2, Answer(0, "a"), s3);
    steps := RunFurther(Next, INIT, steps, s3, FailLate(0), s4);
    assert "a" in s4.registry && s4.registry["a"] == 0;
  }

  /** With the invariant, being registered is owning the entry under one's own id. */
  lemma RegisteredAt(s: State, k: nat)
    requires Inv(s) && k < |s.sessions|
    ensures IsRegistered(s, k) <==> s.sessions[k].id in s.registry && s.registry[s.sessions[k].id] == k
  {
  }

  /** A step that takes the entry of session k away: by stopping, or because an id of somebody else's is k's. */
  predicate Displaces(s: State, step: Step, k: nat)
    requires Enabled(s, step) && k < |s.sessions|
  {
    var own := s.sessions[k].id;
    match step
    case Stop => true
    case Delete(id) => id == own
    case Resume(id) => id == own
    case Register(j) => j != k && s.sessions[j].id == own
    case FailInTry(j) => s.sessions[j].id == own
    case Answer(j, returned) => j != k && returned != s.sessions[j].id && (s.sessions[j].id == own || returned == own)
    case _ => false
  }

  /** Every step, exactly: a registered session stays registered unless the step displaces it. */
  lemma StaysUnlessDisplaced(s: State, step: Step, k: nat)
    requires Inv(s) && Enabled(s, step) && k < |s.sessions| && IsRegistered(s, k)
    ensures k < |Apply(s, step).sessions|
    ensures IsRegistered(Apply(s, step), k) <==> !Displaces(s, step, k)
  {
    StepKeepsInv(s, step);
    RegisteredAt(s, k);
    RegisteredAt(Apply(s, step), k);
  }

  ghost predicate Undisturbed(s: State, steps: seq<Step>, k: nat)
    decreases |steps|
  {
    if |steps| == 0 then true
    else
      && Enabled(s, steps[0]) && k < |s.sessions| && !Displaces(s, steps[0], k)
      && Undisturbed(Apply(s, steps[0]), steps[1..], k)
  }

  /** So over a whole run a session keeps its entry, whatever id the server moves it to. */
  lemma {:induction false} StaysRegistered(s: State, steps: seq<Step>, end: State, k: nat)
    requires Inv(s) && Run(Next, s, steps, end) && k < |s.sessions| && IsRegistered(s, k) && Undisturbed(s, steps, k)
    ensures k < |end.sessions| && end.sessions[k].id in end.registry && end.registry[end.sessions[k].id] == k
    decreases |steps|
  {
    hide Apply, Enabled, Inv, Displaces, IsRegistered;
    if |steps| == 0 {
      RegisteredAt(s, k);
    } else {
      StaysUnlessDisplaced(s, steps[0], k);
      StepKeepsInv(s, steps[0]);
      StaysRegistered(Apply(s, steps[0]), steps[1..], end, k);
    }
  }

  /** A failing create call takes away the entry of a session that was resumed under its id. */
  lemma FailureDropsAnother()
    ensures exists mid, end ::
              && Run(Next, INIT, [Make("a"), Register(0), Resume("a")], mid) && IsRegistered(mid, 1)
              && Run(Next, mid, [FailInTry(0)], end) && !IsRegistered(end, 1) && end.sessions[1].phase.Settled?
  {
    hide Run;
    var s1 := Apply(INIT, Make("a"));
    var s2 := Apply(s1, Register(0));
    var s3 := Apply(s2, Resume("a"));
    var s4 := Apply(s3, FailInTry(0));
    RunOne(Next, INIT, Make("a"));
    var steps := RunFurther(Next, INIT, [Make("a")], s1, Register(0), s2);
    steps := RunFurther(Next, INIT, steps, s2, Resume("a"), s3);
    assert steps == [Make("a"), Register(0), Resume("a")];
    RunOne(Next, s3, FailInTry(0));
    assert "a" in s3.registry && s3.registry["a"] == 1;
    assert s4.registry == map[];
  }

  /** Registering, resuming and being renamed put the session under its id. */
  lemma Enters(s: State, step: Step)
    requires Enabled(s, step)
    ensures step.Register? ==>
              var id := s.sessions[step.k].id; id in Apply(s, step).registry && Apply(s, step).registry[id] == step.k
    ensures step.Resume? ==>
              step.id in Apply(s, step).registry && Apply(s, step).registry[step.id] == |s.sessions|
    ensures step.Answer? && step.returned != s.sessions[step.k].id ==>
              step.returned in Apply(s, step).registry && Apply(s, step).registry[step.returned] == step.k
  {
  }

  /** Stopping raises the flag of exactly the registered sessions, and lets go of them and of the connection. */
  lemma StopCancels(s: State, k: nat)
    requires Inv(s) && k < |s.sessions|
    ensures var next := Apply(s, Stop);
            && |next.sessions| == |s.sessions|
            && (next.sessions[k].cancelled <==> s.sessions[k].cancelled || IsRegistered(s, k))
            && next.sessions[k].id == s.sessions[k].id && next.sessions[k].phase == s.sessions[k].phase
            && next.registry == map[] && next.conn == Disconnected && next.rpc == NoRpc
  {
    assert k in s.registry.Values <==> IsRegistered(s, k);
  }

  /** An attempt to start ends connected or in error, and changes nothing once connected. */
  lemma StartEnds(s: State, attempt: Attempt)
    requires Enabled(s, Start(attempt))
    ensures var next := Apply(s, Start(attempt));
            && (s.conn.Connected? ==> next == s)
            && (!s.conn.Connected? ==> next.conn == if attempt.Good? then Connected else Error)
            && next.registry == s.registry && next.sessions == s.sessions
  {
  }
}
