/** The bounded command runner (scripts/dormant_app_install.py): a command is started as the
    leader of its own process group, its output is read within a bound and a deadline, and
    the group is killed, reaped and observed absent before a result is returned. Every answer
    of the operating system is arbitrary, and the runner itself may be interrupted between any
    two of its actions; the ghost state says what is really alive. */
module ProcessGroup {
  import opened Common

  const MAX_COMMAND_OUTPUT_BYTES := 8 * 1024 * 1024
  const READ_SIZE := 65536

  datatype Action = GroupKill | LeaderKill | Reaped | Probed(absent: bool)

  datatype Error =
    | TerminationFailed
    | CleanupInterrupted
    | WaitFailed
    | Timeout
    | OutputOversized
    | OutputInvalid
    | IoUnavailable
    | CleanupFailed
    | Interruption

  datatype Signal = Delivered | NoSuchProcess | NotPermitted | OtherError | Interrupted

  datatype Observed = Running | Exited | Unobservable(error: Error)

  datatype Waited = Collected | Expired | WaitInterrupted

  datatype Probe = Gone | Visible | Denied | ProbeError | ProbeInterrupted

  datatype CommandResult = CommandResult(returncode: int, stdout: seq<char>, stderr: seq<char>)

  /** A cleanup failure is raised with the primary error as its cause. */
  datatype Outcome = Returned(result: CommandResult) | Raised(error: Error, cause: Option<Error>)

  /** The errors observation, termination and closing end with. */
  predicate CleanupError(e: Error)
  {
    e in {TerminationFailed, CleanupInterrupted, WaitFailed, CleanupFailed}
  }

  ghost predicate CleanupOnly(failure: Option<Error>) { failure.Some? ==> CleanupError(failure.value) }

  /** The runner itself was interrupted outside its guarded calls. */
  predicate WasInterrupted(r: Outcome)
  {
    r.Raised? && (r.error == Interruption || r.cause == Some(Interruption))
  }

  function GroupKills(trace: seq<Action>): nat
  {
    if trace == [] then 0 else GroupKills(trace[..|trace| - 1]) + (if Last(trace) == GroupKill then 1 else 0)
  }

  lemma GroupKillsGrow(trace: seq<Action>, a: Action)
    ensures GroupKills(trace + [a]) == GroupKills(trace) + (if a == GroupKill then 1 else 0)
  {
    assert (trace + [a])[..|trace|] == trace;
  }

  /** No process and no group is signalled once the leader has been reaped: from then on the
      numeric identifiers may belong to somebody else. */
  ghost predicate NoSignalAfterReaping(trace: seq<Action>)
  {
    forall i, j | 0 <= i < j < |trace| && trace[i] == Reaped :: trace[j] != GroupKill && trace[j] != LeaderKill
  }

  method Chunk() returns (c: seq<char>, ended: bool)
    ensures |c| <= READ_SIZE && (ended ==> c == [])
  {
    c, ended := *, *;
    if ended {
      c := [];
    } else if |c| > READ_SIZE {
      c := c[..READ_SIZE];
    }
  }

  class Child {
    /** Set when the leader is reaped (`process.returncode`). */
    var returncode: Option<int>
    /** Members of the group that exist, the unreaped leader included. */
    ghost var alive: nat
    ghost var trace: seq<Action>
    /** Everything the pipes have delivered, and whether they ended. */
    ghost var output: seq<char>
    ghost var errors: seq<char>
    ghost var outputEnded: bool
    ghost var errorsEnded: bool

    ghost predicate Valid()
      reads this
    {
      && NoSignalAfterReaping(trace)
      && (returncode.Some? <==> Reaped in trace)
      && (returncode.None? ==> alive > 0)
    }

    /** The leader is reaped and nothing of the group is left. */
    ghost predicate Contained()
      reads this
    {
      returncode.Some? && alive == 0
    }

    /** `subprocess.Popen(..., start_new_session=True)`. */
    constructor ()
      ensures Valid() && returncode == None && trace == []
      ensures output == [] && errors == [] && !outputEnded && !errorsEnded
    {
      returncode := None;
      alive := 1;
      trace := [];
      output, errors, outputEnded, errorsEnded := [], [], false, false;
    }

    /** Members fork and exit on their own; an empty group stays empty. */
    ghost method Evolve()
      requires Valid()
      modifies this`alive
      ensures Valid() && (old(alive) == 0 ==> alive == 0)
    {
      var n: int := *;
      if alive > 0 && n > 0 {
        alive := n;
      } else if alive > 0 && returncode.Some? {
        alive := 0;
      }
    }

    ghost method Note(a: Action)
      requires Valid() && a != Reaped
      requires (a == GroupKill || a == LeaderKill) ==> returncode.None?
      modifies this`trace
      ensures Valid() && trace == old(trace) + [a]
      ensures GroupKills(trace) == GroupKills(old(trace)) + (if a == GroupKill then 1 else 0)
    {
      GroupKillsGrow(trace, a);
      trace := trace + [a];
    }

    method Reap()
      requires Valid() && returncode.None?
      modifies this`returncode, this`alive, this`trace
      ensures Valid() && returncode.Some? && GroupKills(trace) == GroupKills(old(trace))
    {
      var code: int := *;
      returncode := Some(code);
      GroupKillsGrow(trace, Reaped);
      trace := trace + [Reaped];
      Evolve();
    }

    /** `os.killpg(group, SIGKILL)`: only while the unreaped leader anchors the identifier. */
    method KillGroup() returns (s: Signal)
      requires Valid() && returncode.None?
      modifies this`returncode, this`alive, this`trace
      ensures Valid() && returncode.None? && GroupKills(trace) == GroupKills(old(trace)) + 1
    {
      s := *;
      Note(GroupKill);
      Evolve();
    }

    /** `_leader_exited_without_reaping`. */
    method LeaderExited() returns (o: Observed)
      requires Valid()
      modifies this`alive
      ensures Valid() && (old(alive) == 0 ==> alive == 0)
      ensures o.Unobservable? ==> CleanupError(o.error)
    {
      Evolve();
      var failed: bool, interrupted: bool, exited: bool := *, *, *;
      if failed {
        return Unobservable(WaitFailed);
      }
      if interrupted {
        return Unobservable(CleanupInterrupted);
      }
      return if exited then Exited else Running;
    }

    /** `_kill_unreaped_leader`; `Popen.kill` polls first, so it may reap instead of signal. */
    method KillUnreapedLeader() returns (failure: Option<Error>)
      requires Valid() && returncode.None?
      modifies this`returncode, this`alive, this`trace
      ensures Valid() && GroupKills(trace) == GroupKills(old(trace))
      ensures CleanupOnly(failure)
    {
      if * {
        Reap();
        return None;
      }
      Note(LeaderKill);
      Evolve();
      var s: Signal := *;
      match s {
        case Delivered => return None;
        case NoSuchProcess =>
          var o := LeaderExited();
          match o {
            case Exited => return None;
            case Running => return Some(TerminationFailed);
            case Unobservable(e) => return Some(e);
          }
        case Interrupted => return Some(CleanupInterrupted);
        case _ => return Some(TerminationFailed);
      }
    }

    /** `process.wait(timeout)`; an interruption may come before or after the reaping. */
    method Wait() returns (r: Waited)
      requires Valid() && returncode.None?
      modifies this`returncode, this`alive, this`trace
      ensures Valid() && GroupKills(trace) == GroupKills(old(trace))
      ensures r == Collected ==> returncode.Some?
    {
      if * {
        Reap();
        if * {
          return WaitInterrupted;
        }
        return Collected;
      }
      Evolve();
      if * {
        return WaitInterrupted;
      }
      return Expired;
    }

    /** `os.killpg(group, 0)`: no such process means that nothing of the group is left. */
    method ProbeGroup() returns (p: Probe)
      requires Valid() && returncode.Some?
      modifies this`alive, this`trace
      ensures Valid() && GroupKills(trace) == GroupKills(old(trace))
      ensures p == Gone ==> alive == 0 && trace == old(trace) + [Probed(true)]
      ensures old(alive) == 0 ==> alive == 0
    {
      Evolve();
      p := *;
      if p == Gone {
        var empty: bool := *;
        if empty {
          alive := 0;
        } else {
          p := Visible;
        }
      }
      Note(Probed(p == Gone));
    }

    // --------------------------------------------------------------------------- output

    /** `os.read` on the standard output pipe: nothing yet, the end, or a chunk. */
    method ReadOutput() returns (chunk: seq<char>, ended: bool)
      modifies this`output, this`outputEnded
      ensures |chunk| <= READ_SIZE && (ended ==> chunk == [])
      ensures output == old(output) + chunk && outputEnded == (old(outputEnded) || ended)
    {
      chunk, ended := Chunk();
      output := output + chunk;
      outputEnded := outputEnded || ended;
    }

    method ReadErrors() returns (chunk: seq<char>, ended: bool)
      modifies this`errors, this`errorsEnded
      ensures |chunk| <= READ_SIZE && (ended ==> chunk == [])
      ensures errors == old(errors) + chunk && errorsEnded == (old(errorsEnded) || ended)
    {
      chunk, ended := Chunk();
      errors := errors + chunk;
      errorsEnded := errorsEnded || ended;
    }

    // ---------------------------------------------------------------------- termination

    /** The first phase of `_terminate_process_group`: one group SIGKILL and its error paths. */
    method SignalGroup() returns (failure: Option<Error>)
      requires Valid() && returncode.None?
      modifies this`returncode, this`alive, this`trace
      ensures Valid() && GroupKills(trace) == GroupKills(old(trace)) + 1
      ensures CleanupOnly(failure)
    {
      var s := KillGroup();
      failure := None;
      match s {
        case Delivered => return None;
        case NoSuchProcess => failure := AfterRefusedSignal();
        case NotPermitted => failure := AfterRefusedSignal();
        case OtherError =>
          var second := KillUnreapedLeader();
          failure := if second.Some? then second else Some(TerminationFailed);
        case Interrupted =>
          var second := KillUnreapedLeader();
          failure := if second.Some? then second else Some(CleanupInterrupted);
      }
    }

    method AfterRefusedSignal() returns (failure: Option<Error>)
      requires Valid() && returncode.None?
      modifies this`returncode, this`alive, this`trace
      ensures Valid() && GroupKills(trace) == GroupKills(old(trace))
      ensures CleanupOnly(failure)
    {
      var o := LeaderExited();
      match o {
        case Exited => return None;
        case Running =>
          var second := KillUnreapedLeader();
          return if second.Some? then second else Some(TerminationFailed);
        case Unobservable(e) =>
          var second := KillUnreapedLeader();
          return if second.Some? then second else Some(e);
      }
    }

    /** Wait for the leader within the shared deadline. */
    method AwaitLeader(first: Option<Error>, deadline: nat) returns (failure: Option<Error>, left: nat)
      requires Valid()
      modifies this`returncode, this`alive, this`trace
      ensures Valid() && GroupKills(trace) == GroupKills(old(trace))
      ensures failure.None? ==> first.None? && returncode.Some?
      ensures CleanupOnly(first) ==> CleanupOnly(failure)
    {
      failure, left := first, deadline;
      while returncode.None?
        invariant Valid() && GroupKills(trace) == GroupKills(old(trace))
        invariant (failure.None? ==> first.None?) && (CleanupOnly(first) ==> CleanupOnly(failure))
        decreases left
      {
        if left == 0 {
          failure := if failure.None? then Some(TerminationFailed) else failure;
          break;
        }
        left := left - 1;
        var r := Wait();
        match r {
          case Collected =>
          case Expired =>
            failure := if failure.None? then Some(TerminationFailed) else failure;
            break;
          case WaitInterrupted =>
            failure := if failure.None? then Some(CleanupInterrupted) else failure;
        }
      }
    }

    /** Probe until the group is absent or the deadline passes. */
    method AwaitAbsence(first: Option<Error>, deadline: nat) returns (failure: Option<Error>)
      requires Valid() && returncode.Some?
      modifies this`alive, this`trace
      ensures Valid() && GroupKills(trace) == GroupKills(old(trace))
      ensures failure.None? ==> first.None? && alive == 0 && trace != [] && Last(trace) == Probed(true)
      ensures CleanupOnly(first) ==> CleanupOnly(failure)
    {
      failure := first;
      var left := deadline;
      while true
        invariant Valid() && GroupKills(trace) == GroupKills(old(trace))
        invariant (failure.None? ==> first.None?) && (CleanupOnly(first) ==> CleanupOnly(failure))
        decreases left
      {
        var p := ProbeGroup();
        match p {
          case Gone => return;
          case ProbeError =>
            return if failure.None? then Some(TerminationFailed) else failure;
          case ProbeInterrupted =>
            failure := if failure.None? then Some(CleanupInterrupted) else failure;
          case _ =>
        }
        if left == 0 {
          return if failure.None? then Some(TerminationFailed) else failure;
        }
        left := left - 1;
        if * {
          failure := if failure.None? then Some(CleanupInterrupted) else failure;
        }
      }
    }

    /** `_terminate_process_group`: success means reaped and observed absent. An interruption
        between its guarded calls is not caught, and may come before the signal. */
    method TerminateGroup(deadline: nat) returns (failure: Option<Error>)
      requires Valid() && returncode.None?
      modifies this`returncode, this`alive, this`trace
      ensures Valid() && GroupKills(old(trace)) <= GroupKills(trace) <= GroupKills(old(trace)) + 1
      ensures failure != Some(Interruption) ==> GroupKills(trace) == GroupKills(old(trace)) + 1
      ensures failure.None? ==> Contained() && trace != [] && Last(trace) == Probed(true)
      ensures failure != Some(Interruption) ==> CleanupOnly(failure)
    {
      if * {
        return Some(Interruption);
      }
      failure := SignalGroup();
      if * {
        return Some(Interruption);
      }
      var left: nat;
      failure, left := AwaitLeader(failure, deadline);
      if * {
        return Some(Interruption);
      }
      if returncode.Some? {
        failure := AwaitAbsence(failure, left);
      }
    }
  }

  // ------------------------------------------------------------------------------ running

  /** What reading produced so far. */
  datatype Buffers = Buffers(stdout: seq<char>, stderr: seq<char>, stdoutOpen: bool, stderrOpen: bool)

  predicate Bounded(b: Buffers) { |b.stdout| + |b.stderr| <= MAX_COMMAND_OUTPUT_BYTES }

  /** The buffers hold exactly what the pipes delivered. */
  ghost predicate InStep(child: Child, b: Buffers)
    reads child
  {
    && b.stdout == child.output && b.stderr == child.errors
    && b.stdoutOpen == !child.outputEnded && b.stderrOpen == !child.errorsEnded
  }

  /** One pass over the ready streams. */
  method ReadReady(child: Child, b: Buffers) returns (r: Buffers, error: Option<Error>)
    requires Bounded(b) && InStep(child, b)
    modifies child`output, child`errors, child`outputEnded, child`errorsEnded
    ensures error.None? ==> Bounded(r) && InStep(child, r)
    ensures error == Some(OutputOversized) <==> |child.output| + |child.errors| > MAX_COMMAND_OUTPUT_BYTES
  {
    r, error := b, None;
    if * {
      return r, Some(IoUnavailable);
    }
    if * {
      return r, Some(Interruption);
    }
    if r.stdoutOpen {
      var chunk, ended := child.ReadOutput();
      r := r.(stdout := r.stdout + chunk, stdoutOpen := !ended);
      if !Bounded(r) {
        return r, Some(OutputOversized);
      }
    }
    if r.stderrOpen {
      var chunk, ended := child.ReadErrors();
      r := r.(stderr := r.stderr + chunk, stderrOpen := !ended);
      if !Bounded(r) {
        return r, Some(OutputOversized);
      }
    }
  }

  /** What the guarded part of the runner leaves behind. */
  datatype Attempt = Attempt(
    primary: Option<Error>, result: Option<CommandResult>, attempted: bool, cleanup: Option<Error>)

  /** The attempted flag is set before the one group signal is sent, so an interruption in
      between leaves the flag without the signal. */
  ghost predicate Accounted(child: Child, a: Attempt)
    reads child
  {
    && child.Valid()
    && GroupKills(child.trace) <= 1
    && (!a.attempted ==> GroupKills(child.trace) == 0 && child.returncode.None? && a.cleanup.None?)
    && CleanupOnly(a.cleanup)
    && (a.primary == Some(OutputOversized) <==> |child.output| + |child.errors| > MAX_COMMAND_OUTPUT_BYTES)
    && (a.attempted && GroupKills(child.trace) == 0 ==> a.primary == Some(Interruption))
    && (a.attempted && a.cleanup.None? && a.primary != Some(Interruption) ==> child.Contained())
    && (a.result.Some? ==>
          && a.attempted && a.primary.None? && child.returncode == Some(a.result.value.returncode)
          && a.result.value.stdout == child.output && a.result.value.stderr == child.errors
          && |child.output| + |child.errors| <= MAX_COMMAND_OUTPUT_BYTES
          && (a.cleanup.None? ==> child.outputEnded && child.errorsEnded))
  }

  /** The guarded part: read until both streams ended and the leader exited, and terminate the
      group as soon as the leader is seen to have exited. */
  method Communicate(child: Child, deadline: nat, cleanupDeadline: nat) returns (a: Attempt)
    requires child.Valid() && child.returncode.None? && GroupKills(child.trace) == 0
    requires InStep(child, Buffers([], [], true, true))
    modifies child
    ensures Accounted(child, a) && (a.primary.Some? || a.result.Some?)
  {
    var b := Buffers([], [], true, true);
    var left := deadline;
    var leaderExited := false;
    while b.stdoutOpen || b.stderrOpen || !leaderExited
      invariant Bounded(b) && InStep(child, b)
      invariant Accounted(child, Attempt(None, None, leaderExited, None))
      decreases left
    {
      if left == 0 {
        return Attempt(Some(Timeout), None, leaderExited, None);
      }
      left := left - 1;
      var error: Option<Error>;
      if b.stdoutOpen || b.stderrOpen {
        b, error := ReadReady(child, b);
        if error.Some? {
          return Attempt(error, None, leaderExited, None);
        }
      }
      if !leaderExited {
        var o := child.LeaderExited();
        if o.Unobservable? {
          return Attempt(Some(o.error), None, false, None);
        }
        if o == Exited {
          leaderExited := true;
          var cleanup := child.TerminateGroup(cleanupDeadline);
          var interrupted: bool := *;
          if interrupted || cleanup == Some(Interruption) {
            return Attempt(Some(Interruption), None, true, None);
          }
          if cleanup.Some? {
            a := Conclude(child, b, cleanup);
            return;
          }
        }
      }
    }
    a := Conclude(child, b, None);
  }

  /** After the loop: a return code and decodable output make a result. */
  method Conclude(child: Child, b: Buffers, cleanup: Option<Error>) returns (a: Attempt)
    requires Bounded(b) && InStep(child, b) && child.Valid() && GroupKills(child.trace) == 1
    requires cleanup.None? ==> child.Contained() && !b.stdoutOpen && !b.stderrOpen
    requires CleanupOnly(cleanup)
    ensures Accounted(child, a) && a.attempted && a.cleanup == cleanup && (a.primary.Some? || a.result.Some?)
  {
    if child.returncode.None? {
      return Attempt(Some(Timeout), None, true, cleanup);
    }
    if * {
      return Attempt(Some(OutputInvalid), None, true, cleanup);
    }
    if * {
      return Attempt(Some(Interruption), None, true, cleanup);
    }
    return Attempt(None, Some(CommandResult(child.returncode.value, b.stdout, b.stderr)), true, cleanup);
  }

  /** `_run_bounded_process` after the start. Whatever happens the group is signalled at most
      once, never after reaping, and exactly once unless an interruption of the runner itself
      propagates. A result comes only from a contained group and within the output bound, and
      an error of the command itself is raised alone, over a contained group too. */
  method RunBoundedProcess(child: Child, deadline: nat, cleanupDeadline: nat) returns (r: Outcome)
    requires child.Valid() && child.returncode.None? && child.trace == []
    requires InStep(child, Buffers([], [], true, true))
    modifies child
    ensures child.Valid() && GroupKills(child.trace) <= 1 && NoSignalAfterReaping(child.trace)
    ensures GroupKills(child.trace) == 0 ==> WasInterrupted(r)
    ensures r.Raised? && r.error == OutputOversized ==>
              |child.output| + |child.errors| > MAX_COMMAND_OUTPUT_BYTES
    ensures |child.output| + |child.errors| > MAX_COMMAND_OUTPUT_BYTES ==>
              r.Raised? && (r.error == OutputOversized || r.cause == Some(OutputOversized))
    ensures r.Raised? && !CleanupError(r.error) && !WasInterrupted(r) ==> child.Contained() && r.cause.None?
    ensures r.Returned? ==>
              && child.Contained()
              && child.returncode == Some(r.result.returncode)
              && r.result.stdout == child.output && r.result.stderr == child.errors
              && child.outputEnded && child.errorsEnded
              && |r.result.stdout| + |r.result.stderr| <= MAX_COMMAND_OUTPUT_BYTES
  {
    var a := Communicate(child, deadline, cleanupDeadline);
    var closeFailed: bool, closeInterrupted: bool := *, *;
    var closeFailure := if closeFailed then Some(CleanupFailed)
                        else if closeInterrupted then Some(CleanupInterrupted) else None;
    var cleanup := a.cleanup;
    if * {
      return Raised(Interruption, a.primary);
    }
    if !a.attempted {
      cleanup := child.TerminateGroup(cleanupDeadline);
      if cleanup == Some(Interruption) {
        return Raised(Interruption, a.primary);
      }
    }
    if cleanup.None? {
      cleanup := closeFailure;
    }
    if cleanup.Some? {
      return Raised(cleanup.value, a.primary);
    }
    if a.primary.Some? {
      return Raised(a.primary.value, None);
    }
    if a.result.None? {
      assert false;                            // command_failed: there is a result or a reason
    }
    return Returned(a.result.value);
  }
}
