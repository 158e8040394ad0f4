/**
  The life of a child process as its owner sees it: asking, waiting, signalling.
  Between any two calls the child may exit.
 */
module Process {
  import opened Basics

  // ---------------------------------------------------- the system's side

  datatype Status = Exited(code: nat) | Signaled(signal: nat) | Strange

  datatype Child = Alive | Zombie(status: Status) | Reaped(status: Status)

  datatype WaitResult = Got(status: Status) | NotYet | WaitFailed

  /** The system calls that name the child; signal 0 is a probe. */
  datatype Call = Signal(number: nat) | Waitpid(result: WaitResult)

  const SIGTERM := 15
  const SIGKILL := 9

  predicate Possible(child: Child, result: WaitResult, blocking: bool) {
    match result
    case Got(status) => child == Zombie(status)
    case NotYet => child.Alive? && !blocking
    case WaitFailed => true
  }

  function Waited(child: Child, result: WaitResult): Child {
    if result.Got? then Reaped(result.status) else child
  }

  // ------------------------------------------------------------ the machine

  /** A pid of 0 is a process that was never spawned. */
  datatype State = State(pid: nat, running: bool, exitCode: int, child: Child, calls: seq<Call>)

  datatype Step =
    | ChildExits(status: Status)
    | Probe
    | Poll(result: WaitResult)
    | Block(result: WaitResult)
    | Send(number: nat)

  function Code(status: Status): int {
    match status
    case Exited(code) => code
    case Signaled(signal) => 128 + signal
    case Strange => -1
  }

  predicate Watched(s: State) {
    s.pid != 0 && s.running
  }

  predicate Enabled(s: State, step: Step) {
    match step
    case ChildExits(_) => s.child.Alive?
    case Poll(result) => Watched(s) ==> Possible(s.child, result, false)
    case Block(result) => Watched(s) ==> Possible(s.child, result, true)
    case _ => true
  }

  function Wait(s: State, result: WaitResult): State {
    var s := s.(calls := s.calls + [Waitpid(result)], child := Waited(s.child, result));
    if result.Got? then s.(exitCode := Code(result.status), running := false) else s
  }

  function Apply(s: State, step: Step): State
    requires Enabled(s, step)
  {
    match step
    case ChildExits(status) => s.(child := Zombie(status))
    case Probe => if Watched(s) then s.(calls := s.calls + [Signal(0)]) else s
    case Poll(result) => if Watched(s) then Wait(s, result) else s
    case Block(result) => if Watched(s) then Wait(s, result) else s
    case Send(number) => if Watched(s) then s.(calls := s.calls + [Signal(number)]) else s
  }

  function Next(s: State, step: Step): Option<State> {
    if Enabled(s, step) then Some(Apply(s, step)) else None
  }

  // --------------------------------------------------------------- the code

  class System {
    var clock: nat
    ghost var child: Child
    ghost var calls: seq<Call>

    constructor ()
      ensures child == Alive && calls == []
    {
      clock, child, calls := 0, Alive, [];
    }

    /** The child may exit before the call looks at it, or while a blocking call waits. */
    method WaitOn(blocking: bool) returns (result: WaitResult, ghost died: Option<Status>)
      modifies `child, `calls
      ensures died.Some? ==> old(child).Alive?
      ensures var seen := if died.Some? then Zombie(died.value) else old(child);
              Possible(seen, result, blocking) && child == Waited(seen, result)
      ensures calls == old(calls) + [Waitpid(result)]
    {
      result, died := WaitFailed, None;
      calls := calls + [Waitpid(result)];
    }

    /** Not found, which only a reaped child can be. */
    method Kill(number: nat) returns (missing: bool)
      modifies `calls
      ensures missing ==> child.Reaped?
      ensures calls == old(calls) + [Signal(number)]
    {
      missing := false;
      calls := calls + [Signal(number)];
    }

    method Sleep(milliseconds: nat)
      modifies `clock
      ensures clock >= old(clock) + milliseconds
    {
      clock := clock + milliseconds;
    }
  }

  /** What a wait comes back with; `Threw` is a ProcessError. */
  datatype Waiting = Ended(code: int) | Unfinished | Threw

  /** The handle of a process object that has not been moved from. */
  class Handle {
    const system: System
    var pid: nat
    var running: bool
    var exitCode: int

    ghost function Model(): State
      reads this, system
    {
      State(pid, running, exitCode, system.child, system.calls)
    }

    constructor (system: System)
      ensures this.system == system && pid == 0 && !running && exitCode == -1
    {
      this.system, pid, running, exitCode := system, 0, false, -1;
    }

    method Spawned(pid: nat)
      requires pid != 0
      modifies this
      ensures Model() == State(pid, true, old(exitCode), old(system.child), old(system.calls))
    {
      this.pid, running := pid, true;
    }

    /** Whether the child has not been reaped: one that has exited and not been waited for still counts. */
    method IsRunning() returns (answer: bool)
      requires Inv(Model())
      modifies system`calls
      ensures Run(Next, old(Model()), [Probe], Model())
      ensures answer <==> Watched(Model())
    {
      RunOne(Next, Model(), Probe);
      if pid == 0 || !running {
        return false;
      }
      var missing := system.Kill(0);
      return !missing;
    }

    method TryWait() returns (outcome: Waiting, ghost steps: seq<Step>)
      modifies this, system`child, system`calls
      ensures Run(Next, old(Model()), steps, Model()) && pid == old(pid)
      ensures outcome.Ended? ==> !Watched(Model()) && outcome.code == exitCode
      ensures outcome.Unfinished? ==> Watched(Model()) && system.child.Alive?
      ensures outcome.Threw? ==> Watched(Model())
      ensures if Watched(old(Model())) then OneWait(old(system.calls), system.calls, outcome)
              else steps == [] && outcome == Ended(exitCode) && Model() == old(Model())
    {
      steps := [];
      if pid == 0 || !running {
        return Ended(exitCode), steps;
      }
      outcome, steps := Collect(false);
    }

    method WaitBlocking() returns (outcome: Waiting, ghost steps: seq<Step>)
      modifies this, system`child, system`calls
      ensures Run(Next, old(Model()), steps, Model()) && pid == old(pid)
      ensures outcome.Ended? ==> !Watched(Model()) && outcome.code == exitCode
      ensures !outcome.Unfinished? && (outcome.Threw? ==> Watched(Model()))
      ensures if Watched(old(Model())) then OneWait(old(system.calls), system.calls, outcome)
              else steps == [] && outcome == Ended(exitCode) && Model() == old(Model())
    {
      steps := [];
      if pid == 0 || !running {
        return Ended(exitCode), steps;
      }
      outcome, steps := Collect(true);
    }

    /** waitpid and what is made of its answer, the same in both waits. */
    method Collect(blocking: bool) returns (outcome: Waiting, ghost steps: seq<Step>)
      requires Watched(Model())
      modifies this, system`child, system`calls
      ensures Run(Next, old(Model()), steps, Model()) && pid == old(pid)
      ensures outcome.Ended? ==> !running && outcome.code == exitCode
      ensures outcome.Unfinished? ==> !blocking && running && system.child.Alive?
      ensures outcome.Threw? ==> running
      ensures OneWait(old(system.calls), system.calls, outcome)
    {
      ghost var before := Model();
      var result: WaitResult;
      ghost var died;
      result, died := system.WaitOn(blocking);
      ghost var mid := if died.Some? then Apply(before, ChildExits(died.value)) else before;
      ghost var step := if blocking then Block(result) else Poll(result);
      match result {
        case Got(status) =>
          match status {
            case Exited(code) => exitCode := code;
            case Signaled(signal) => exitCode := 128 + signal;
            case Strange => exitCode := -1;
          }
          running := false;
          outcome := Ended(exitCode);
        case NotYet => outcome := Unfinished;
        case WaitFailed => outcome := Threw;
      }
      assert Model() == Apply(mid, step);
      RunOne(Next, mid, step);
      steps := [step];
      if died.Some? {
        RunOne(Next, before, ChildExits(died.value));
        RunOn(Next, before, [ChildExits(died.value)], mid, steps, Model());
        steps := [ChildExits(died.value)] + steps;
      }
    }

    /** Asks at least once, and gives up no earlier than the deadline. */
    method WaitFor(timeout: nat) returns (outcome: Waiting, ghost steps: seq<Step>)
      modifies this, system
      ensures Run(Next, old(Model()), steps, Model()) && pid == old(pid)
      ensures outcome.Ended? ==> !Watched(Model()) && outcome.code == exitCode
      ensures outcome.Unfinished? ==> Watched(Model()) && system.clock >= old(system.clock) + timeout
      ensures outcome.Threw? ==> Watched(Model())
      ensures old(system.calls) <= system.calls && OnlyWaits(system.calls[|old(system.calls)|..])
      ensures if Watched(old(Model())) then |system.calls| > |old(system.calls)|
              else outcome == Ended(exitCode) && Model() == old(Model())
    {
      ghost var before := Model();
      var deadline := system.clock + timeout;
      outcome, steps := TryWait();
      while outcome.Unfinished?
        invariant Run(Next, before, steps, Model()) && pid == old(pid)
        invariant outcome.Ended? ==> !Watched(Model()) && outcome.code == exitCode
        invariant !outcome.Ended? ==> Watched(Model())
        invariant Waits(before.calls, system.calls)
        invariant if Watched(before) then |system.calls| > |before.calls| else outcome.Ended? && Model() == before
        decreases outcome.Unfinished?, deadline - system.clock
      {
        system.Sleep(10);
        if system.clock >= deadline {
          return Unfinished, steps;
        }
        ghost var mid := Model();
        ghost var more;
        outcome, more := TryWait();
        WaitsOn(before.calls, mid.calls, system.calls);
        RunOn(Next, before, steps, mid, more, Model());
        steps := steps + more;
      }
    }

    method Terminate()
      modifies system`calls
      ensures Run(Next, old(Model()), [Send(SIGTERM)], Model())
    {
      RunOne(Next, Model(), Send(SIGTERM));
      if pid > 0 && running {
        var _ := system.Kill(SIGTERM);
      }
    }

    method Kill()
      modifies system`calls
      ensures Run(Next, old(Model()), [Send(SIGKILL)], Model())
    {
      RunOne(Next, Model(), Send(SIGKILL));
      if pid > 0 && running {
        var _ := system.Kill(SIGKILL);
      }
    }

    /** The destructor, after the pipes are closed: five seconds to go quietly. */
    method Destroy() returns (outcome: Waiting, ghost steps: seq<Step>)
      requires Inv(Model())
      modifies this, system
      ensures Run(Next, old(Model()), steps, Model())
      ensures outcome.Ended? ==> !Watched(Model())
      ensures outcome.Unfinished? ==> system.clock >= old(system.clock) + 5000
      ensures if !Watched(old(Model())) then Model() == old(Model()) && outcome == Ended(exitCode)
              else AsksThenWaits(old(system.calls), system.calls)
    {
      ghost var before := Model();
      outcome, steps := Ended(exitCode), [Probe];
      var answer := IsRunning();
      if answer {
        ghost var mid := Model();
        Terminate();
        RunOn(Next, before, steps, mid, [Send(SIGTERM)], Model());
        mid := Model();
        assert mid.calls == before.calls + [Signal(0), Signal(SIGTERM)];
        ghost var more;
        outcome, more := WaitFor(5000);
        RunOn(Next, before, [Probe] + [Send(SIGTERM)], mid, more, Model());
        steps := [Probe] + [Send(SIGTERM)] + more;
        AfterSignals(before.calls, mid.calls, system.calls);
      }
    }
  }

  /** What the answer of one waitpid comes back as. */
  function Meaning(result: WaitResult): Waiting {
    match result
    case Got(status) => Ended(Code(status))
    case NotYet => Unfinished
    case WaitFailed => Threw
  }

  lemma WaitAnswers(result: WaitResult)
    ensures Meaning(result).Unfinished? <==> result == NotYet
    ensures Meaning(result).Threw? <==> result == WaitFailed
    ensures forall code: nat :: result == Got(Exited(code)) ==> Meaning(result) == Ended(code)
    ensures forall signal: nat :: result == Got(Signaled(signal)) ==> Meaning(result) == Ended(128 + signal)
    ensures result == Got(Strange) ==> Meaning(result) == Ended(-1)
  {
  }

  /** Exactly one more call, a wait, and what it answered. */
  predicate OneWait(before: seq<Call>, after: seq<Call>, outcome: Waiting) {
    && |after| == |before| + 1 && after[..|before|] == before
    && after[|before|].Waitpid? && outcome == Meaning(after[|before|].result)
  }

  predicate OnlyWaits(calls: seq<Call>) {
    forall i | 0 <= i < |calls| :: calls[i].Waitpid?
  }

  predicate Waits(before: seq<Call>, after: seq<Call>) {
    before <= after && OnlyWaits(after[|before|..])
  }

  lemma WaitsOn(a: seq<Call>, b: seq<Call>, c: seq<Call>)
    requires Waits(a, b) && Waits(b, c)
    ensures Waits(a, c)
  {
    forall i | |a| <= i < |c|
      ensures c[i].Waitpid?
    {
      assert c[i] == if i < |b| then b[|a|..][i - |a|] else c[|b|..][i - |b|];
    }
  }

  /** A probe, a SIGTERM, and then at least one wait and nothing else. */
  predicate AsksThenWaits(before: seq<Call>, after: seq<Call>) {
    var n := |before|;
    && n + 3 <= |after| && after[..n] == before
    && after[n] == Signal(0) && after[n + 1] == Signal(SIGTERM) && OnlyWaits(after[n + 2..])
  }

  lemma AfterSignals(before: seq<Call>, mid: seq<Call>, after: seq<Call>)
    requires mid == before + [Signal(0), Signal(SIGTERM)] && Waits(mid, after) && |after| > |mid|
    ensures AsksThenWaits(before, after)
  {
    assert after[..|mid|] == mid;
    assert forall i | 0 <= i < |mid| :: after[i] == mid[i];
    assert after[..|before|] == before;
  }

  // ---------------------------------------------------------- the invariant

  /** Nothing is asked of the system about the child once it has been reaped. */
  predicate ReapEnds(calls: seq<Call>) {
    forall i | 0 <= i < |calls| - 1 :: !(calls[i].Waitpid? && calls[i].result.Got?)
  }

  predicate Reaps(call: Call, status: Status) {
    call == Waitpid(Got(status))
  }

  ghost predicate Inv(s: State) {
    && ReapEnds(s.calls)
    && (Watched(s) ==> !s.child.Reaped?)
    && (s.child.Reaped? ==>
        |s.calls| > 0 && Reaps(s.calls[|s.calls| - 1], s.child.status) && s.exitCode == Code(s.child.status))
    && (|s.calls| > 0 && s.calls[|s.calls| - 1].Waitpid? && s.calls[|s.calls| - 1].result.Got? ==> s.child.Reaped?)
    && (s.pid != 0 && !s.running ==> s.child.Reaped?)
  }

  lemma StepKeepsInv(s: State, step: Step)
    requires Inv(s) && Enabled(s, step)
    ensures Inv(Apply(s, step))
  {
  }

  lemma RunKeepsInv(s: State, steps: seq<Step>, end: State)
    requires Inv(s) && Run(Next, s, steps, end)
    ensures Inv(end)
  {
    forall a: State, step: Step | Inv(a) && Next(a, step).Some?
      ensures Inv(Next(a, step).value)
    {
      StepKeepsInv(a, step);
    }
    RunKeeps(Next, Inv, s, steps, end);
  }

  // ------------------------------------------------------------ whole runs

  function AfterSpawn(pid: nat): State {
    State(pid, true, -1, Alive, [])
  }

  /**
    After one spawn, whatever methods follow: the child is reaped at most once,
    and the reaping is the last system call about it, waits, signals and probes alike.
   */
  lemma ReapedOnceAndLast(pid: nat, steps: seq<Step>, end: State, i: nat)
    requires pid != 0 && Run(Next, AfterSpawn(pid), steps, end) && i < |end.calls|
    ensures (exists status :: Reaps(end.calls[i], status)) <==> i == |end.calls| - 1 && !Watched(end)
  {
    RunKeepsInv(AfterSpawn(pid), steps, end);
    SamePid(AfterSpawn(pid), steps, end);
  }

  lemma {:induction false} SamePid(s: State, steps: seq<Step>, end: State)
    requires Run(Next, s, steps, end)
    ensures end.pid == s.pid
    decreases |steps|
  {
    if |steps| > 0 {
      SamePid(Apply(s, steps[0]), steps[1..], end);
    }
  }

  /** Once reaped: the exit code is the child's, and neither it nor the calls change any more. */
  lemma {:induction false} ReapedIsFinal(s: State, steps: seq<Step>, end: State)
    requires Inv(s) && s.child.Reaped? && Run(Next, s, steps, end)
    ensures end == s && end.exitCode == Code(s.child.status)
    decreases |steps|
  {
    if |steps| > 0 {
      ReapedIsFinal(Apply(s, steps[0]), steps[1..], end);
    }
  }

  /** The owner stops watching exactly when the child has been reaped, not when it exits. */
  lemma WatchedUntilReaped(pid: nat, steps: seq<Step>, end: State)
    requires pid != 0 && Run(Next, AfterSpawn(pid), steps, end)
    ensures Watched(end) <==> !end.child.Reaped?
  {
    RunKeepsInv(AfterSpawn(pid), steps, end);
    SamePid(AfterSpawn(pid), steps, end);
  }

  /** A child that has exited and not been waited for is still taken to be running. */
  lemma ZombieIsWatched()
    ensures exists end ::
        Run(Next, AfterSpawn(1), [ChildExits(Exited(0))], end) && end.child == Zombie(Exited(0)) && Watched(end)
  {
    RunOne(Next, AfterSpawn(1), ChildExits(Exited(0)));
  }

  /** The exit code of a reaped child: its own, or 128 and the signal that ended it, or -1. */
  lemma ExitCodes(pid: nat, steps: seq<Step>, end: State)
    requires pid != 0 && Run(Next, AfterSpawn(pid), steps, end)
    ensures forall code: nat :: end.child == Reaped(Exited(code)) ==> end.exitCode == code
    ensures forall signal: nat :: end.child == Reaped(Signaled(signal)) ==> end.exitCode == 128 + signal
    ensures end.child == Reaped(Strange) || !end.child.Reaped? ==> end.exitCode == -1
  {
    RunKeepsInv(AfterSpawn(pid), steps, end);
    UnreapedIsMinusOne(AfterSpawn(pid), steps, end);
  }

  lemma {:induction false} UnreapedIsMinusOne(s: State, steps: seq<Step>, end: State)
    requires Inv(s) && Run(Next, s, steps, end) && (!s.child.Reaped? ==> s.exitCode == -1)
    ensures !end.child.Reaped? ==> end.exitCode == -1
    decreases |steps|
  {
    if |steps| > 0 {
      StepKeepsInv(s, steps[0]);
      UnreapedIsMinusOne(Apply(s, steps[0]), steps[1..], end);
    }
  }

  /** What is waited for is what the child exited with. */
  lemma {:induction false} ReapedAsExited(s: State, steps: seq<Step>, end: State)
    requires Run(Next, s, steps, end) && s.child == Alive && end.child.Reaped?
    ensures ChildExits(end.child.status) in steps
    decreases |steps|
  {
    if |steps| > 0 {
      var next := Apply(s, steps[0]);
      if steps[0].ChildExits? {
        ExitStays(next, steps[1..], end);
      } else {
        ReapedAsExited(next, steps[1..], end);
        assert steps == [steps[0]] + steps[1..];
      }
    }
  }

  lemma {:induction false} ExitStays(s: State, steps: seq<Step>, end: State)
    requires Run(Next, s, steps, end) && !s.child.Alive?
    ensures !end.child.Alive? && end.child.status == s.child.status
    decreases |steps|
  {
    if |steps| > 0 {
      ExitStays(Apply(s, steps[0]), steps[1..], end);
    }
  }
}
