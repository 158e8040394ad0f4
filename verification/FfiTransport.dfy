/**
  The in-process transport: a runtime library whose connection must be released
  before the library may go. close() asks a bounded number of times and rather
  keeps the library than unload it under a callback. Writers look for an open
  connection under the lock and call the runtime after it.
 */
module FfiTransport {
  import opened Basics

  // ------------------------------------------------------------- the machine

  /** Where a close() is; `Asking` counts the attempts it has left. */
  datatype Closing = NotClosing | Asking(left: nat) | ShuttingDown | Unloading

  /**
    `handedOut` and `released` are the runtime's side: it was given our callback,
    and it has confirmed to be done with it. `writers` have looked and not yet
    called; `lateWrites` counts the calls into an unloaded library.
   */
  datatype State = State(
    library: bool,
    server: bool,
    connection: bool,
    open: bool,
    inbound: string,
    handedOut: bool,
    released: bool,
    starts: nat,
    shutdowns: nat,
    unloads: nat,
    closeCalls: nat,
    accepted: string,
    delivered: string,
    closing: Closing,
    writers: set<nat>,
    lateWrites: nat)

  const LOADED :=
    State(true, false, false, false, "", false, false, 0, 0, 0, 0, "", "", NotClosing, {}, 0)

  datatype Step =
    | StartHost(server: bool, connection: bool)
    | Receive(bytes: string)
    | Read(size: nat)
    | Look(writer: nat)
    | Call(writer: nat)
    | CloseBegins(attempts: nat)
    | Ask(yes: bool)
    | ShutDown
    | Unload

  predicate Holding(s: State) {
    s.handedOut && !s.released
  }

  /** A read waits for bytes or for the end; one thread at a time closes. */
  predicate Enabled(s: State, step: Step) {
    match step
    case StartHost(server, connection) => s == LOADED && (connection ==> server)
    case Receive(_) => true
    case Read(_) => s.inbound != "" || !s.open
    case Look(writer) => writer !in s.writers
    case Call(writer) => writer in s.writers
    case CloseBegins(_) => s.closing.NotClosing?
    case Ask(_) => s.closing.Asking? && s.closing.left > 0
    case ShutDown => s.closing.ShuttingDown?
    case Unload => s.closing.Unloading?
  }

  function Least(a: nat, b: nat): nat {
    if a < b then a else b
  }

  function Apply(s: State, step: Step): State
    requires Enabled(s, step)
  {
    match step
    case StartHost(server, connection) =>
      s.(server := server, connection := connection, open := connection, handedOut := connection,
         starts := if server then 1 else 0)
    case Receive(bytes) =>
      if s.open then s.(inbound := s.inbound + bytes, accepted := s.accepted + bytes) else s
    case Read(size) =>
      var count := Least(size, |s.inbound|);
      s.(inbound := s.inbound[count..], delivered := s.delivered + s.inbound[..count])
    case Look(writer) => if s.open then s.(writers := s.writers + {writer}) else s
    case Call(writer) =>
      s.(writers := s.writers - {writer}, lateWrites := if s.library then s.lateWrites else s.lateWrites + 1)
    case CloseBegins(attempts) =>
      if !s.open && !s.library then s
      else s.(open := false, closing := FirstMove(s.connection, attempts))
    case Ask(yes) =>
      var asked := s.(closeCalls := s.closeCalls + 1);
      if yes then asked.(connection := false, released := true, closing := ShuttingDown)
      else asked.(closing := if s.closing.left == 1 then NotClosing else Asking(s.closing.left - 1))
    case ShutDown =>
      s.(server := false, shutdowns := if s.server then s.shutdowns + 1 else s.shutdowns, closing := Unloading)
    case Unload =>
      s.(library := false, unloads := if s.library then s.unloads + 1 else s.unloads, closing := NotClosing)
  }

  function FirstMove(connection: bool, attempts: nat): Closing {
    if !connection then ShuttingDown else if attempts == 0 then NotClosing else Asking(attempts)
  }

  function Next(s: State, step: Step): Option<State> {
    if Enabled(s, step) then Some(Apply(s, step)) else None
  }

  // ----------------------------------------------------------- the invariant

  /** Each foreign resource is held, or was given back once, in the right order. */
  predicate Safe(s: State) {
    && (s.connection <==> Holding(s))
    && s.starts <= 1 && s.shutdowns + (if s.server then 1 else 0) == s.starts
    && s.unloads + (if s.library then 1 else 0) == 1
    && (s.open ==> s.connection && s.closing.NotClosing?)
    && (s.connection ==> s.server && s.library)
    && (s.server ==> s.library)
    && (s.released ==> s.handedOut)
    && (s.closing.Asking? ==> s.connection && s.closing.left > 0)
    && (s.closing.ShuttingDown? || s.closing.Unloading? ==> !s.connection && s.library)
    && (s.closing.Unloading? ==> !s.server)
    && (s.lateWrites > 0 ==> !s.library)
    && (s.writers != {} ==> s.handedOut)
    && s.delivered + s.inbound == s.accepted
  }

  lemma StepIsSafe(s: State, step: Step)
    requires Safe(s) && Enabled(s, step)
    ensures Safe(Apply(s, step))
  {
    match step
    case Receive(bytes) => Assoc(s.delivered, s.inbound, bytes);
    case Read(size) =>
      var count := Least(size, |s.inbound|);
      Assoc(s.delivered, s.inbound[..count], s.inbound[count..]);
      assert s.inbound[..count] + s.inbound[count..] == s.inbound;
    case _ =>
  }

  lemma RunIsSafe(s: State, steps: seq<Step>, end: State)
    requires Safe(s) && Run(Next, s, steps, end)
    ensures Safe(end)
  {
    forall a: State, step: Step | Safe(a) && Next(a, step).Some?
      ensures Safe(Next(a, step).value)
    {
      StepIsSafe(a, step);
    }
    RunKeeps(Next, Safe, s, steps, end);
  }

  /** A run so far, from a safe state to a safe state. */
  ghost predicate Reached(before: State, steps: seq<Step>, now: State) {
    Safe(before) && Run(Next, before, steps, now) && Safe(now)
  }

  // --------------------------------------------------------- who does what

  datatype Role = Closer | Writer(name: nat)

  predicate Belongs(step: Step, who: Role) {
    match step
    case StartHost(_, _) => who.Closer?
    case Look(writer) => who == Writer(writer)
    case Call(writer) => who == Writer(writer)
    case CloseBegins(_) => who.Closer?
    case Ask(_) => who.Closer?
    case ShutDown => who.Closer?
    case Unload => who.Closer?
    case _ => false
  }

  predicate Others(steps: seq<Step>, who: Role) {
    forall i | 0 <= i < |steps| :: !Belongs(steps[i], who)
  }

  /** Nobody but the closer touches what it closes, and a writer's look is not forgotten. */
  predicate Left(s: State, next: State, who: Role) {
    match who
    case Closer =>
      && next.library == s.library && next.server == s.server && next.connection == s.connection
      && next.open == s.open && next.closing == s.closing && next.handedOut == s.handedOut
    case Writer(name) => name in next.writers <==> name in s.writers
  }

  lemma StepLeaves(s: State, step: Step, who: Role)
    requires Enabled(s, step) && !Belongs(step, who)
    ensures Left(s, Apply(s, step), who)
  {
  }

  lemma {:induction false} OthersLeave(s: State, steps: seq<Step>, end: State, who: Role)
    requires Run(Next, s, steps, end) && Others(steps, who)
    ensures Left(s, end, who)
    decreases |steps|
  {
    hide Apply, Enabled;
    if |steps| > 0 {
      StepLeaves(s, steps[0], who);
      OthersLeave(Apply(s, steps[0]), steps[1..], end, who);
    }
  }

  // ---------------------------------------------------------------- the code

  /** The C ABI of the runtime. The preconditions say when a call would be unsafe. */
  class Runtime {
    ghost var handedOut: bool
    ghost var released: bool
    ghost var starts: nat
    ghost var shutdowns: nat
    ghost var unloads: nat
    ghost var closeCalls: nat

    constructor ()
      ensures !handedOut && !released && starts == shutdowns == unloads == closeCalls == 0
    {
      handedOut, released := false, false;
      starts, shutdowns, unloads, closeCalls := 0, 0, 0, 0;
    }

    method HostStart() returns (id: nat)
      modifies `starts
      ensures starts == old(starts) + (if id != 0 then 1 else 0)
    {
      id := *;
      if id != 0 {
        starts := starts + 1;
      }
    }

    method ConnectionOpen(server: nat) returns (id: nat)
      modifies `handedOut
      ensures handedOut == (old(handedOut) || id != 0)
    {
      id := *;
      handedOut := handedOut || id != 0;
    }

    method ConnectionClose(id: nat) returns (ok: bool)
      requires id != 0 && handedOut && !released && unloads == 0
      modifies `released, `closeCalls
      ensures released == ok && closeCalls == old(closeCalls) + 1
    {
      ok := *;
      released := released || ok;
      closeCalls := closeCalls + 1;
    }

    method HostShutdown(server: nat)
      requires server != 0 && shutdowns < starts && !(handedOut && !released) && unloads == 0
      modifies `shutdowns
      ensures shutdowns == old(shutdowns) + 1
    {
      shutdowns := shutdowns + 1;
    }

    method Unload()
      requires unloads == 0 && shutdowns == starts && !(handedOut && !released)
      modifies `unloads
      ensures unloads == 1
    {
      unloads := 1;
    }
  }

  class Transport {
    const runtime: Runtime
    var library: bool
    var serverId: nat
    var connectionId: nat
    var open: bool
    var inbound: string
    var attempts: nat
    ghost var accepted: string
    ghost var delivered: string
    ghost var closing: Closing
    ghost var writers: set<nat>
    ghost var lateWrites: nat

    ghost function Model(): State
      reads this, runtime
    {
      State(library, serverId != 0, connectionId != 0, open, inbound, runtime.handedOut, runtime.released,
            runtime.starts, runtime.shutdowns, runtime.unloads, runtime.closeCalls, accepted, delivered,
            closing, writers, lateWrites)
    }

    /** The library is loaded; nothing has been started. */
    constructor (runtime: Runtime)
      requires !runtime.handedOut && !runtime.released
      requires runtime.starts == runtime.shutdowns == runtime.unloads == runtime.closeCalls == 0
      ensures this.runtime == runtime && attempts == 50 && Model() == LOADED
    {
      this.runtime := runtime;
      library, serverId, connectionId, open := true, 0, 0, false;
      inbound, attempts, accepted, delivered := "", 50, "", "";
      closing, writers, lateWrites := NotClosing, {}, 0;
    }

    method SetRetryPolicy(attempts: nat)
      modifies `attempts
      ensures this.attempts == attempts
    {
      this.attempts := attempts;
    }

    /** What all others do while this thread does not hold the lock; callers know no more than the contract. */
    method Interfere(ghost who: Role) returns (ghost steps: seq<Step>)
      requires Safe(Model())
      modifies this, runtime
      ensures attempts == old(attempts) && Run(Next, old(Model()), steps, Model()) && Others(steps, who)
    {
      steps := [];
    }

    method Pause(ghost who: Role, ghost before: State, ghost steps: seq<Step>) returns (ghost longer: seq<Step>)
      requires Reached(before, steps, Model())
      modifies this, runtime
      ensures attempts == old(attempts) && Reached(before, longer, Model()) && Left(old(Model()), Model(), who)
      ensures Later(steps, longer, who)
    {
      hide Safe, Run, Left;
      ghost var mid := Model();
      ghost var others := Interfere(who);
      OthersLeave(mid, others, Model(), who);
      RunIsSafe(mid, others, Model());
      RunOn(Next, before, steps, mid, others, Model());
      longer := steps + others;
    }

    /** The step just taken continues the run. */
    ghost method Took(before: State, steps: seq<Step>, mid: State, step: Step) returns (longer: seq<Step>)
      requires Reached(before, steps, mid) && Enabled(mid, step) && Model() == Apply(mid, step)
      ensures Reached(before, longer, Model()) && longer == steps + [step]
    {
      hide Safe, Enabled, Apply;
      StepIsSafe(mid, step);
      longer := RunFurther(Next, before, steps, mid, step, Model());
    }

    /** The constructor after load(): start the host, open the connection, or close again and throw. */
    method Start() returns (ok: bool, ghost steps: seq<Step>)
      requires Model() == LOADED
      modifies this, runtime
      ensures Reached(LOADED, steps, Model())
      ensures ok ==> steps == [StartHost(true, true)]
      ensures !ok ==> !library
    {
      serverId := runtime.HostStart();
      ghost var server := serverId != 0;
      if serverId != 0 {
        connectionId := runtime.ConnectionOpen(serverId);
      }
      open := serverId != 0 && connectionId != 0;
      ok := open;
      steps := Took(LOADED, [], LOADED, StartHost(server, ok));
      if !ok {
        ghost var mid := Model();
        ghost var more := CloseAll();
        RunOn(Next, LOADED, steps, mid, more, Model());
        CloseDecides(mid, more[0].attempts, more, Model());
        steps := steps + more;
      }
    }

    method ReceiveBytes(bytes: string)
      modifies `inbound, `accepted
      ensures Model() == Apply(old(Model()), Receive(bytes))
    {
      if |bytes| == 0 || !open {
        assert inbound + "" == inbound && accepted + "" == accepted;
        return;
      }
      inbound := inbound + bytes;
      accepted := accepted + bytes;
    }

    method ReadBytes(size: nat) returns (bytes: string)
      requires inbound != "" || !open
      modifies `inbound, `delivered
      ensures Model() == Apply(old(Model()), Read(size)) && delivered == old(delivered) + bytes
      ensures old(inbound) == bytes + inbound && |bytes| <= size && (inbound == "" || |bytes| == size)
    {
      bytes := "";
      ghost var queued := inbound;
      if inbound == "" {
        Unit(delivered);
        return;
      }
      var count := Least(size, |inbound|);
      for i := 0 to count
        invariant bytes == queued[..i] && inbound == queued[i..] && delivered == old(delivered)
      {
        bytes := bytes + [inbound[0]];
        inbound := inbound[1..];
      }
      assert bytes == queued[..count] && inbound == queued[count..];
      delivered := delivered + bytes;
    }

    /** The call comes after the lock is given up: what is then left of the connection is not known. */
    method WriteBytes(ghost writer: nat) returns (sent: bool, ghost steps: seq<Step>)
      requires Safe(Model()) && writer !in writers
      modifies this, runtime
      ensures Reached(old(Model()), steps, Model()) && sent == old(open)
      ensures |steps| > 0 && steps[0] == Look(writer) && (sent ==> steps[|steps| - 1] == Call(writer))
    {
      ghost var before := Model();
      sent := open;
      if sent {
        writers := writers + {writer};
      }
      steps := Took(before, [], before, Look(writer));
      if sent {
        steps := Pause(Writer(writer), before, steps);
        ghost var mid := Model();
        writers := writers - {writer};
        lateWrites := if library then lateWrites else lateWrites + 1;
        steps := Took(before, steps, mid, Call(writer));
      }
    }

    method CloseAll() returns (ghost steps: seq<Step>)
      requires Safe(Model()) && closing.NotClosing?
      modifies this, runtime
      ensures Reached(old(Model()), steps, Model()) && closing.NotClosing? && attempts == old(attempts)
      ensures OneClose(steps, attempts)
    {
      ghost var before := Model();
      if !open && !library {
        steps := Took(before, [], before, CloseBegins(attempts));
        return;
      }
      var connected := connectionId != 0;
      open := false;
      closing := FirstMove(connected, attempts);
      ghost var begun := Took(before, [], before, CloseBegins(attempts));
      steps := Pause(Closer, before, begun);
      OthersDoNotClose(begun, steps, attempts);
      if connected {
        var released;
        released, steps := AskForRelease(before, steps);
        if !released {
          return;
        }
      }
      steps := ShutDownAndUnload(before, steps);
    }

    method AskOnce() returns (yes: bool)
      requires Safe(Model()) && closing.Asking?
      modifies `connectionId, `closing, runtime`released, runtime`closeCalls
      ensures Model() == Apply(old(Model()), Ask(yes))
      ensures closing == if yes then ShuttingDown else FirstMove(true, old(closing).left - 1)
    {
      ghost var left := closing.left;
      yes := runtime.ConnectionClose(connectionId);
      if yes {
        connectionId := 0;
      }
      closing := if yes then ShuttingDown else FirstMove(true, left - 1);
    }

    /** The loop: up to the first yes, or until the attempts are used up. */
    method AskForRelease(ghost before: State, ghost steps: seq<Step>) returns (released: bool, ghost longer: seq<Step>)
      requires Reached(before, steps, Model()) && OneClose(steps, attempts)
      requires closing == FirstMove(true, attempts)
      modifies this, runtime
      ensures attempts == old(attempts) && Reached(before, longer, Model()) && OneClose(longer, attempts)
      ensures closing == if released then ShuttingDown else NotClosing
    {
      hide Apply, Safe, Run, OneClose, Later;
      longer := steps;
      released := false;
      var attempt := 0;
      while attempt < attempts && !released
        invariant attempt <= attempts == old(attempts)
        invariant Reached(before, longer, Model()) && OneClose(longer, attempts)
        invariant closing == if released then ShuttingDown else FirstMove(true, attempts - attempt)
        decreases attempts - attempt
      {
        ghost var mid := Model();
        released := AskOnce();
        ghost var asked := Took(before, longer, mid, Ask(released));
        StillOneClose(longer, Ask(released), attempts);
        longer := Pause(Closer, before, asked);
        OthersDoNotClose(asked, longer, attempts);
        attempt := attempt + 1;
      }
    }

    method ShutDownOnce()
      requires Safe(Model()) && closing.ShuttingDown?
      modifies `serverId, `closing, runtime`shutdowns
      ensures Model() == Apply(old(Model()), ShutDown) && closing == Unloading
    {
      if serverId != 0 {
        runtime.HostShutdown(serverId);
        serverId := 0;
      }
      closing := Unloading;
    }

    method UnloadOnce()
      requires Safe(Model()) && closing.Unloading?
      modifies `library, `closing, runtime`unloads
      ensures Model() == Apply(old(Model()), Unload) && closing == NotClosing
    {
      if library {
        runtime.Unload();
        library := false;
      }
      closing := NotClosing;
    }

    method ShutDownAndUnload(ghost before: State, ghost steps: seq<Step>) returns (ghost longer: seq<Step>)
      requires Reached(before, steps, Model()) && OneClose(steps, attempts) && closing.ShuttingDown?
      modifies this, runtime
      ensures attempts == old(attempts) && Reached(before, longer, Model()) && OneClose(longer, attempts)
      ensures closing.NotClosing?
    {
      hide Apply, Safe, Run, OneClose, Later;
      ghost var mid := Model();
      ShutDownOnce();
      ghost var shut := Took(before, steps, mid, ShutDown);
      StillOneClose(steps, ShutDown, attempts);
      longer := Pause(Closer, before, shut);
      OthersDoNotClose(shut, longer, attempts);
      mid := Model();
      UnloadOnce();
      StillOneClose(longer, Unload, attempts);
      longer := Took(before, longer, mid, Unload);
    }
  }

  lemma StillOneClose(steps: seq<Step>, step: Step, attempts: nat)
    requires OneClose(steps, attempts) && !step.CloseBegins? && !step.StartHost?
    ensures OneClose(steps + [step], attempts)
  {
    assert (steps + [step])[1..] == steps[1..] + [step];
  }

  lemma OthersDoNotClose(steps: seq<Step>, longer: seq<Step>, attempts: nat)
    requires OneClose(steps, attempts) && Later(steps, longer, Closer)
    ensures OneClose(longer, attempts)
  {
    var others := longer[|steps|..];
    forall i | 1 <= i < |longer|
      ensures !longer[i].CloseBegins? && !longer[i].StartHost?
    {
      if i < |steps| {
        assert longer[i] == steps[1..][i - 1];
      } else {
        assert longer[i] == others[i - |steps|];
      }
    }
    assert longer[0] == steps[0];
  }

  /** Only the first of these steps is a call of close(), and none starts a host. */
  ghost predicate OneClose(steps: seq<Step>, attempts: nat) {
    |steps| > 0 && steps[0] == CloseBegins(attempts) && NoOtherClose(steps[1..])
  }

  predicate NoOtherClose(steps: seq<Step>) {
    forall i | 0 <= i < |steps| :: !steps[i].CloseBegins? && !steps[i].StartHost?
  }

  /** The run has gone on with steps of others. */
  predicate Later(steps: seq<Step>, longer: seq<Step>, who: Role) {
    |steps| <= |longer| && longer[..|steps|] == steps && Others(longer[|steps|..], who)
  }

  // ------------------------------------------------------------ whole runs

  /**
    Close safety: the library is unloaded and the host shut down at most once,
    and never while the runtime still holds the callback.
   */
  lemma NeverUnloadedInUse(steps: seq<Step>, end: State)
    requires Run(Next, LOADED, steps, end)
    ensures end.unloads <= 1 && end.shutdowns <= end.starts <= 1
    ensures end.unloads > 0 || end.shutdowns > 0 ==> !Holding(end)
    ensures end.unloads > 0 ==> end.shutdowns == end.starts
  {
    RunIsSafe(LOADED, steps, end);
  }

  function Asks(steps: seq<Step>): nat {
    if |steps| == 0 then 0 else (if steps[0].Ask? then 1 else 0) + Asks(steps[1..])
  }

  /** How a close that is under way goes on, whatever others do in between. */
  lemma {:induction false} CloseGoesOn(s: State, steps: seq<Step>, end: State)
    requires Safe(s) && Run(Next, s, steps, end) && NoOtherClose(steps) && end.closing.NotClosing? && !s.open
    ensures !end.open
    ensures Asks(steps) <= if s.closing.Asking? then s.closing.left else 0
    ensures s.closing.Asking? && end.library ==> Asks(steps) == s.closing.left
    ensures !end.library <==> !s.library || s.closing.ShuttingDown? || s.closing.Unloading? || Ask(true) in steps
    ensures end.library ==> end.server == s.server && end.connection == s.connection
    decreases |steps|
  {
    if |steps| > 0 {
      var next := Apply(s, steps[0]);
      StepIsSafe(s, steps[0]);
      assert forall i | 0 <= i < |steps[1..]| :: steps[1..][i] == steps[i + 1];
      CloseGoesOn(next, steps[1..], end);
      assert Ask(true) in steps <==> steps[0] == Ask(true) || Ask(true) in steps[1..];
    }
  }

  /**
    What one close() decides, with reads, writes and arriving bytes in between:
    everything goes exactly when nothing is held or the runtime says yes.
   */
  lemma CloseDecides(s: State, attempts: nat, steps: seq<Step>, end: State)
    requires Safe(s) && s.closing.NotClosing? && OneClose(steps, attempts)
    requires Run(Next, s, steps, end) && end.closing.NotClosing?
    ensures !end.open && Asks(steps) <= attempts
    ensures end.library ==> Asks(steps) == attempts
    ensures !end.library <==> !s.connection || Ask(true) in steps
    ensures !end.library ==> !end.server && !end.connection && !Holding(end)
    ensures end.library ==> end.server == s.server && end.connection == s.connection
  {
    var next := Apply(s, steps[0]);
    StepIsSafe(s, steps[0]);
    RunIsSafe(s, steps, end);
    CloseGoesOn(next, steps[1..], end);
    assert Ask(true) in steps <==> Ask(true) in steps[1..];
  }

  /** After a complete close nothing foreign is asked, shut down or unloaded any more. */
  lemma {:induction false} ClosedIsFinal(s: State, steps: seq<Step>, end: State)
    requires Safe(s) && !s.library && Run(Next, s, steps, end)
    ensures !end.library && end.closeCalls == s.closeCalls && end.unloads == s.unloads && end.shutdowns == s.shutdowns
    ensures end.accepted == s.accepted && end.writers <= s.writers
    decreases |steps|
  {
    if |steps| > 0 {
      StepIsSafe(s, steps[0]);
      ClosedIsFinal(Apply(s, steps[0]), steps[1..], end);
    }
  }

  /** From the steps alone: a connection was opened, and no close has begun. */
  predicate OpenAfter(steps: seq<Step>) {
    && (exists i :: 0 <= i < |steps| && steps[i].StartHost? && steps[i].connection)
    && (forall i | 0 <= i < |steps| :: !steps[i].CloseBegins?)
  }

  /** From the steps alone: everything that arrived while open. */
  function Arrived(steps: seq<Step>): string {
    if |steps| == 0 then ""
    else
      var before, last := steps[..|steps| - 1], steps[|steps| - 1];
      if last.Receive? && OpenAfter(before) then Arrived(before) + last.bytes else Arrived(before)
  }

  lemma OpenNext(steps: seq<Step>)
    requires |steps| > 0
    ensures var before, last := steps[..|steps| - 1], steps[|steps| - 1];
            OpenAfter(steps) <==>
              !last.CloseBegins? && (OpenAfter(before) || (last.StartHost? && last.connection && NoneBegun(before)))
  {
    var before, last := steps[..|steps| - 1], steps[|steps| - 1];
    assert forall i | 0 <= i < |before| :: before[i] == steps[i];
    if OpenAfter(before) {
      var i :| 0 <= i < |before| && before[i].StartHost? && before[i].connection;
      assert steps[i].StartHost? && steps[i].connection;
    }
  }

  predicate NoneBegun(steps: seq<Step>) {
    forall i | 0 <= i < |steps| :: !steps[i].CloseBegins?
  }

  lemma OpenStep(s: State, step: Step, next: State)
    requires Safe(s) && Next(s, step) == Some(next)
    ensures next.open <==> !step.CloseBegins? && (s.open || (step.StartHost? && step.connection))
    ensures step.StartHost? ==> s == LOADED
  {
  }

  /** A transport that is as loaded has seen no close. */
  lemma {:induction false} OpenIsKnown(steps: seq<Step>, end: State)
    requires Run(Next, LOADED, steps, end)
    ensures end.open <==> OpenAfter(steps)
    ensures end == LOADED ==> NoneBegun(steps)
    decreases |steps|
  {
    hide Run, Next, Safe;
    if |steps| == 0 {
      RunNothingEnds(Next, LOADED, steps, end);
    } else {
      var n := |steps| - 1;
      var mid := RunLast(Next, LOADED, steps, end);
      OpenIsKnown(steps[..n], mid);
      OpenNext(steps);
      LoadedIsSafe();
      RunIsSafe(LOADED, steps[..n], mid);
      OpenStep(mid, steps[n], end);
      if end == LOADED {
        NotLoadedAgain(mid, steps[n]);
      }
    }
  }

  /** Nothing leads back to the beginning but what changes nothing. */
  lemma NotLoadedAgain(s: State, step: Step)
    requires Safe(s) && Next(s, step) == Some(LOADED)
    ensures s == LOADED && !step.CloseBegins?
  {
  }

  lemma LoadedIsSafe()
    ensures Safe(LOADED)
  {
  }

  lemma AcceptStep(s: State, step: Step, next: State)
    requires Next(s, step) == Some(next)
    ensures step.Receive? && s.open ==> next.accepted == s.accepted + step.bytes
    ensures !(step.Receive? && s.open) ==> next.accepted == s.accepted
  {
  }

  /** Every byte that arrived while open was accepted, in order, and no other. */
  lemma {:induction false} ArrivedIsAccepted(steps: seq<Step>, end: State)
    requires Run(Next, LOADED, steps, end)
    ensures end.accepted == Arrived(steps)
    decreases |steps|
  {
    hide Run, Next, OpenAfter;
    if |steps| == 0 {
      RunNothingEnds(Next, LOADED, steps, end);
    } else {
      var n := |steps| - 1;
      var mid := RunLast(Next, LOADED, steps, end);
      ArrivedIsAccepted(steps[..n], mid);
      OpenIsKnown(steps[..n], mid);
      AcceptStep(mid, steps[n], end);
    }
  }

  /** Reads return, in order and once each, the bytes that arrived while open. */
  lemma ReadsAreFifo(steps: seq<Step>, end: State)
    requires Run(Next, LOADED, steps, end)
    ensures end.delivered <= Arrived(steps) && Arrived(steps) == end.delivered + end.inbound
  {
    RunIsSafe(LOADED, steps, end);
    ArrivedIsAccepted(steps, end);
  }

  // ------------------------------------------------------ writes and closing

  /** The library goes with an unload and the connection with a yes, and neither comes back. */
  lemma {:induction false} WhatIsGone(s: State, steps: seq<Step>, end: State)
    requires Safe(s) && s.handedOut && Run(Next, s, steps, end)
    ensures !end.library <==> !s.library || Unload in steps
    ensures !end.connection <==> !s.connection || Ask(true) in steps
    decreases |steps|
  {
    if |steps| > 0 {
      StepIsSafe(s, steps[0]);
      WhatIsGone(Apply(s, steps[0]), steps[1..], end);
      assert forall step :: step in steps <==> step == steps[0] || step in steps[1..];
    }
  }

  /**
    A write finds the connection open when it looks. Its call reaches an unloaded
    library exactly when a close got as far as unloading in between, and a
    released connection exactly when the runtime said yes in between.
   */
  lemma WriteReaches(s: State, writer: nat, between: seq<Step>, mid: State)
    requires Safe(s) && s.open && Enabled(s, Look(writer))
    requires Run(Next, Apply(s, Look(writer)), between, mid) && Enabled(mid, Call(writer))
    ensures Apply(mid, Call(writer)).lateWrites > mid.lateWrites <==> Unload in between
    ensures !mid.connection <==> Ask(true) in between
  {
    StepIsSafe(s, Look(writer));
    WhatIsGone(Apply(s, Look(writer)), between, mid);
  }

  /** So without a close nothing is written too late. */
  lemma {:induction false} OnlyClosesMakeLate(s: State, steps: seq<Step>, end: State)
    requires Safe(s) && s.library && Run(Next, s, steps, end) && Unload !in steps
    ensures end.lateWrites == s.lateWrites
    decreases |steps|
  {
    if |steps| > 0 {
      StepIsSafe(s, steps[0]);
      OnlyClosesMakeLate(Apply(s, steps[0]), steps[1..], end);
    }
  }

  const LOOKED := [StartHost(true, true), Look(0)]
  const CLOSED := [CloseBegins(50), Ask(true), ShutDown, Unload]

  /** The transport is open and a write has looked. */
  const BEFORE_CALL :=
    LOADED.(server := true, connection := true, open := true, handedOut := true, starts := 1, writers := {0})

  /** The runtime has said yes at once; the write has still not called. */
  const AFTER_CLOSE :=
    LOADED.(library := false, handedOut := true, released := true, starts := 1, shutdowns := 1, unloads := 1,
            closeCalls := 1, writers := {0})

  lemma LooksFirst()
    ensures Run(Next, LOADED, LOOKED, BEFORE_CALL)
  {
    hide Run;
    var started := BEFORE_CALL.(writers := {});
    assert {} + {0} == {0};
    RunOne(Next, LOADED, StartHost(true, true));
    var steps := RunFurther(Next, LOADED, [StartHost(true, true)], started, Look(0), BEFORE_CALL);
    assert steps == LOOKED;
  }

  lemma ClosesThen()
    ensures Run(Next, BEFORE_CALL, CLOSED, AFTER_CLOSE)
  {
    hide Run;
    var s1 := BEFORE_CALL.(open := false, closing := Asking(50));
    var s2 := s1.(closeCalls := 1, connection := false, released := true, closing := ShuttingDown);
    var s3 := s2.(server := false, shutdowns := 1, closing := Unloading);
    RunOne(Next, BEFORE_CALL, CloseBegins(50));
    var steps := RunFurther(Next, BEFORE_CALL, [CloseBegins(50)], s1, Ask(true), s2);
    steps := RunFurther(Next, BEFORE_CALL, steps, s2, ShutDown, s3);
    steps := RunFurther(Next, BEFORE_CALL, steps, s3, Unload, AFTER_CLOSE);
    assert steps == CLOSED;
  }

  /** A run in which a write that found the connection open calls into an unloaded library. */
  lemma WriteAfterUnload()
    ensures exists end :: Run(Next, LOADED, LOOKED + CLOSED + [Call(0)], end) && end.lateWrites == 1
  {
    hide Run;
    var end := AFTER_CLOSE.(writers := {}, lateWrites := 1);
    assert AFTER_CLOSE.writers - {0} == {};
    LooksFirst();
    ClosesThen();
    RunOn(Next, LOADED, LOOKED, BEFORE_CALL, CLOSED, AFTER_CLOSE);
    var steps := RunFurther(Next, LOADED, LOOKED + CLOSED, AFTER_CLOSE, Call(0), end);
  }
}
