/**
 The process manager as a state machine. Every process has one or two output readers, a
 waiter and control threads; they share an event log, the table of live processes, a
 replay buffer and, for a terminal, a gate under a lock. A step is one atomic action of
 one of them, and a run is any sequence of steps; a step that cannot happen yet has no
 effect.
 */
module ProcessSupervision {
  import opened Wrappers
  import opened Text
  import opened BoundedSuffix
  import opened ProcessOutput

  // ----- State -----

  datatype Event =
    | Output(pid: nat, chunk: Chunk)
    | Exited(pid: nat, code: Option<int>)
    | Failed(pid: nat, message: string)

  datatype Completion = ExitedWith(code: Option<int>) | Killed(error: Option<string>) | FailedWith(message: string)

  /** Where a reader stands: a chunk is first read, then pushed to the buffer, then published. */
  datatype Reader = Reading | Holding(data: string) | InGate(data: string) | Pushed(data: string) | Sent | Finished

  datatype Lock = Free | HeldByReader | HeldByWaiter

  datatype Waiter =
    | Waiting
    | Completed(completion: Completion)
    | Removed(completion: Completion)
    | StdoutDrained(completion: Completion)
    | Drained(completion: Completion)
    | Locked(completion: Completion)
    | Closed(completion: Completion)
    | Published(completion: Completion)
    | Ended(completion: Completion)

  /** `pushed` is the history of the buffer. */
  datatype Process = Process(
    pty: bool, stdout: Reader, stderr: Reader, stdoutAborted: bool, stderrAborted: bool,
    lock: Lock, gateOpen: bool, waiter: Waiter, buffer: seq<Chunk>, pushed: seq<Chunk>)

  datatype State = State(table: set<nat>, processes: map<nat, Process>, log: seq<Event>)

  const INITIAL := State({}, map[], [])

  function Started(pty: bool): Process
  {
    Process(pty, Reading, if pty then Finished else Reading, false, false, Free, true, Waiting, [], [])
  }

  function ReaderOf(process: Process, stream: ProcessStream): Reader
  {
    if stream == Stdout then process.stdout else process.stderr
  }

  function WithReader(process: Process, stream: ProcessStream, reader: Reader): Process
  {
    if stream == Stdout then process.(stdout := reader) else process.(stderr := reader)
  }

  function IsAborted(process: Process, stream: ProcessStream): bool
  {
    if stream == Stdout then process.stdoutAborted else process.stderrAborted
  }

  // ----- Actions -----

  datatype Action =
    | Read(stream: ProcessStream, data: string)
    | EndOfStream(stream: ProcessStream)
    | ReadError(stream: ProcessStream, message: string)
    | TakeGate
    | PassGate
    | Push(stream: ProcessStream)
    | Send(stream: ProcessStream)
    | LeaveGate
    | Cancelled(stream: ProcessStream)
    | ChildEnds(completion: Completion)
    | RemoveFromTable
    | AbortReader(stream: ProcessStream)
    | FinishDrain
    | CloseGate
    | Publish
    | PublishKillError
    | Release
    | ControlError(message: string)

  /**
   A terminal's reader pushes and sends while it holds the gate; a pipe's reader has no
   gate. A pipe's waiter goes on only when its readers have finished, by themselves or
   cancelled between two reads; a terminal's waiter goes on after a timeout too.
   */
  predicate Enabled(process: Process, action: Action)
  {
    match action
    case Read(stream, _) => ReaderOf(process, stream) == Reading
    case EndOfStream(stream) => ReaderOf(process, stream) == Reading
    case ReadError(stream, _) => ReaderOf(process, stream) == Reading
    case TakeGate => process.pty && process.stdout.Holding? && process.lock == Free
    case PassGate => process.pty && process.stdout.InGate? && !process.gateOpen
    case Push(stream) =>
      if process.pty then stream == Stdout && process.stdout.InGate? && process.gateOpen
      else ReaderOf(process, stream).Holding?
    case Send(stream) => ReaderOf(process, stream).Pushed?
    case LeaveGate => process.pty && process.stdout == Sent
    case Cancelled(stream) => !process.pty && IsAborted(process, stream) && ReaderOf(process, stream) == Reading
    case ChildEnds(completion) => process.waiter == Waiting && (process.pty ==> !completion.Killed?)
    case RemoveFromTable => process.waiter.Completed?
    case AbortReader(stream) =>
      !process.pty && (if stream == Stdout then process.waiter.Removed? else process.waiter.StdoutDrained?)
    case FinishDrain =>
      || (process.pty && process.waiter.Removed?)
      || (!process.pty && process.waiter.Removed? && process.stdout == Finished)
      || (!process.pty && process.waiter.StdoutDrained? && process.stderr == Finished)
    case CloseGate => process.pty && ((process.waiter.Drained? && process.lock == Free) || process.waiter.Locked?)
    case Publish => if process.pty then process.waiter.Closed? else process.waiter.Drained?
    case PublishKillError => !process.pty && process.waiter.Published?
    case Release => process.pty && process.waiter.Published?
    case ControlError(_) => true
  }

  /** The process after an enabled action. */
  function After(process: Process, action: Action): Process
    requires Enabled(process, action)
  {
    match action
    case Read(stream, data) => WithReader(process, stream, Holding(data))
    case EndOfStream(stream) => WithReader(process, stream, Finished)
    case ReadError(stream, _) => WithReader(process, stream, Finished)
    case TakeGate => process.(stdout := InGate(process.stdout.data), lock := HeldByReader)
    case PassGate => process.(stdout := Sent)
    case Push(stream) =>
      var data := ReaderOf(process, stream).data;
      var chunk := Chunk(stream, data);
      WithReader(process, stream, Pushed(data)).(
        buffer := Replay(process.buffer + [chunk]), pushed := process.pushed + [chunk])
    case Send(stream) => WithReader(process, stream, if process.pty then Sent else Reading)
    case LeaveGate => process.(stdout := Reading, lock := Free)
    case Cancelled(stream) => WithReader(process, stream, Finished)
    case ChildEnds(completion) => process.(waiter := Completed(completion))
    case RemoveFromTable => process.(waiter := Removed(process.waiter.completion))
    case AbortReader(stream) =>
      if stream == Stdout then process.(stdoutAborted := true) else process.(stderrAborted := true)
    case FinishDrain =>
      process.(waiter := if !process.pty && process.waiter.Removed? then StdoutDrained(process.waiter.completion)
                         else Drained(process.waiter.completion))
    case CloseGate =>
      if process.waiter.Drained? then process.(waiter := Locked(process.waiter.completion), lock := HeldByWaiter)
      else process.(waiter := Closed(process.waiter.completion), gateOpen := false)
    case Publish => process.(waiter := Published(process.waiter.completion))
    case PublishKillError => process.(waiter := Ended(process.waiter.completion))
    case Release => process.(waiter := Ended(process.waiter.completion), lock := Free)
    case ControlError(_) => process
  }

  function TerminalEvent(pid: nat, completion: Completion): Event
  {
    match completion
    case ExitedWith(code) => Exited(pid, code)
    case Killed(_) => Exited(pid, None)
    case FailedWith(message) => Failed(pid, message)
  }

  /** The event an enabled action publishes. */
  function Emitted(pid: nat, process: Process, action: Action): Option<Event>
    requires Enabled(process, action)
  {
    match action
    case ReadError(_, message) => Some(Failed(pid, message))
    case Send(stream) => Some(Output(pid, Chunk(stream, ReaderOf(process, stream).data)))
    case Publish => Some(TerminalEvent(pid, process.waiter.completion))
    case PublishKillError =>
      (match process.waiter.completion
       case Killed(Some(message)) => Some(Failed(pid, message))
       case _ => None)
    case ControlError(message) => Some(Failed(pid, message))
    case _ => None
  }

  datatype Step = Start(id: nat, pty: bool) | Act(id: nat, action: Action)

  /** Ids of started processes are new; every other step belongs to one process. */
  function Do(state: State, step: Step): State
  {
    match step
    case Start(pid, pty) =>
      if pid in state.processes then state
      else State(state.table + {pid}, state.processes[pid := Started(pty)], state.log)
    case Act(pid, action) =>
      if pid !in state.processes || !Enabled(state.processes[pid], action) then state
      else
        var process := state.processes[pid];
        var emitted := Emitted(pid, process, action);
        State(
          if action == RemoveFromTable then state.table - {pid} else state.table,
          state.processes[pid := After(process, action)],
          if emitted.Some? then state.log + [emitted.value] else state.log)
  }

  function Run(state: State, steps: seq<Step>): State
  {
    if steps == [] then state else Do(Run(state, steps[..|steps| - 1]), steps[|steps| - 1])
  }

  // ----- What the log shows of one process -----

  /** `clean` is lost when an output follows an exit. */
  datatype Trace = Trace(outputs: seq<Chunk>, exits: nat, clean: bool)

  function Observe(trace: Trace, event: Event, pid: nat): Trace
  {
    if event.pid != pid then trace
    else
      match event
      case Output(_, chunk) => Trace(trace.outputs + [chunk], trace.exits, trace.clean && trace.exits == 0)
      case Exited(_, _) => trace.(exits := trace.exits + 1)
      case Failed(_, _) => trace
  }

  function Observed(log: seq<Event>, pid: nat): Trace
  {
    if log == [] then Trace([], 0, true) else Observe(Observed(log[..|log| - 1], pid), log[|log| - 1], pid)
  }

  function OnStream(chunks: seq<Chunk>, stream: ProcessStream): seq<Chunk>
  {
    if chunks == [] then []
    else
      OnStream(chunks[..|chunks| - 1], stream) +
      (if chunks[|chunks| - 1].stream == stream then [chunks[|chunks| - 1]] else [])
  }

  /** The chunk that is in the buffer but not yet in the log. */
  function Pending(process: Process, stream: ProcessStream): seq<Chunk>
  {
    var reader := ReaderOf(process, stream);
    if reader.Pushed? then [Chunk(stream, reader.data)] else []
  }

  // ----- The invariant of one process -----

  predicate HasPublished(process: Process)
  {
    process.waiter.Published? || process.waiter.Ended?
  }

  ghost predicate GateInv(process: Process)
  {
    && (process.lock == HeldByReader <==> process.stdout.InGate? || process.stdout.Pushed? || process.stdout == Sent)
    && (process.lock == HeldByWaiter <==> process.waiter.Locked? || process.waiter.Closed? || process.waiter.Published?)
    && (process.gateOpen <==> !process.waiter.Closed? && !HasPublished(process))
    && (process.stdout.Pushed? ==> process.gateOpen)
    && process.stderr == Finished
    && (!process.waiter.Waiting? ==> !process.waiter.completion.Killed?)
  }

  ghost predicate PipeInv(process: Process)
  {
    && (process.waiter.StdoutDrained? || process.waiter.Drained? || HasPublished(process) ==>
          process.stdout == Finished)
    && (process.waiter.Drained? || HasPublished(process) ==> process.stderr == Finished)
    && !process.waiter.Locked? && !process.waiter.Closed?
  }

  ghost predicate LockInv(process: Process)
  {
    if process.pty then GateInv(process) else PipeInv(process)
  }

  /** The exit is published once, after the id left the table, and no output follows it. */
  ghost predicate ExitInv(process: Process, trace: Trace, inTable: bool)
  {
    && (inTable <==> process.waiter.Waiting? || process.waiter.Completed?)
    && trace.exits == (if HasPublished(process) && !process.waiter.completion.FailedWith? then 1 else 0)
    && trace.clean
  }

  /** Buffer, history and log agree, up to the chunk that is about to be published. */
  ghost predicate DataInv(process: Process, outputs: seq<Chunk>)
  {
    && process.buffer == Replay(process.pushed)
    && (forall stream :: OnStream(outputs, stream) + Pending(process, stream) == OnStream(process.pushed, stream))
    && (process.pty ==> outputs + Pending(process, Stdout) == process.pushed)
  }

  ghost predicate Inv(process: Process, trace: Trace, inTable: bool)
  {
    LockInv(process) && ExitInv(process, trace, inTable) && DataInv(process, trace.outputs)
  }

  ghost predicate StateInv(state: State)
  {
    && (forall pid | pid in state.processes :: Inv(state.processes[pid], Observed(state.log, pid), pid in state.table))
    && (forall pid | pid !in state.processes :: pid !in state.table && Observed(state.log, pid) == Trace([], 0, true))
  }

  lemma {:induction false} OnStreamPush(chunks: seq<Chunk>, chunk: Chunk, stream: ProcessStream)
    ensures OnStream(chunks + [chunk], stream)
          == OnStream(chunks, stream) + (if chunk.stream == stream then [chunk] else [])
  {
    assert (chunks + [chunk])[..|chunks|] == chunks;
  }

  lemma {:induction false} ObservedPush(log: seq<Event>, event: Event, pid: nat)
    ensures Observed(log + [event], pid) == Observe(Observed(log, pid), event, pid)
  {
    assert (log + [event])[..|log|] == log;
  }

  function TraceAfter(pid: nat, process: Process, action: Action, trace: Trace): Trace
    requires Enabled(process, action)
  {
    var emitted := Emitted(pid, process, action);
    if emitted.Some? then Observe(trace, emitted.value, pid) else trace
  }

  lemma {:induction false} LockStep(process: Process, action: Action)
    requires Enabled(process, action) && LockInv(process)
    ensures LockInv(After(process, action))
  {
  }

  lemma {:induction false} ExitStep(pid: nat, process: Process, action: Action, trace: Trace, inTable: bool)
    requires Enabled(process, action) && LockInv(process) && ExitInv(process, trace, inTable)
    ensures ExitInv(
              After(process, action), TraceAfter(pid, process, action, trace), inTable && action != RemoveFromTable)
  {
    if action.Send? {
      assert !HasPublished(process);
    }
  }

  lemma {:induction false} DataStep(pid: nat, process: Process, action: Action, trace: Trace)
    requires Enabled(process, action) && LockInv(process) && DataInv(process, trace.outputs)
    ensures DataInv(After(process, action), TraceAfter(pid, process, action, trace).outputs)
  {
    if action.Push? {
      PushStep(process, action.stream, trace.outputs);
    } else if action.Send? {
      SendStep(pid, process, action.stream, trace);
    } else {
      QuietStep(pid, process, action, trace);
      hide After, TraceAfter, Enabled, Pending;
    }
  }

  /** Every action but push and send leaves the data alone. */
  lemma {:induction false} QuietStep(pid: nat, process: Process, action: Action, trace: Trace)
    requires Enabled(process, action) && LockInv(process) && !action.Push? && !action.Send?
    ensures var next := After(process, action);
            && next.pushed == process.pushed && next.buffer == process.buffer && next.pty == process.pty
            && TraceAfter(pid, process, action, trace).outputs == trace.outputs
            && forall stream :: Pending(next, stream) == Pending(process, stream)
  {
    forall stream
      ensures Pending(After(process, action), stream) == Pending(process, stream)
    {
    }
  }

  lemma {:induction false} PushEffect(process: Process, stream: ProcessStream)
    requires Enabled(process, Push(stream)) && LockInv(process)
    ensures ReaderOf(process, stream).Holding? || ReaderOf(process, stream).InGate?
    ensures var next, chunk := After(process, Push(stream)), Chunk(stream, ReaderOf(process, stream).data);
            && next.pty == process.pty && (process.pty ==> stream == Stdout)
            && next.buffer == Replay(process.buffer + [chunk]) && next.pushed == process.pushed + [chunk]
            && Pending(process, stream) == [] && Pending(next, stream) == [chunk]
            && forall other | other != stream :: Pending(next, other) == Pending(process, other)
  {
  }

  lemma {:induction false} PushStep(process: Process, stream: ProcessStream, outputs: seq<Chunk>)
    requires Enabled(process, Push(stream)) && LockInv(process) && DataInv(process, outputs)
    ensures DataInv(After(process, Push(stream)), outputs)
  {
    PushEffect(process, stream);
    hide After, Enabled, LockInv, Pending;
    var chunk := Chunk(stream, ReaderOf(process, stream).data);
    BoundingIsIncremental(process.pushed, [chunk], CHUNK_BYTES, PROCESS_OUTPUT_REPLAY_BYTES);
    forall other
      ensures OnStream(outputs, other) + Pending(After(process, Push(stream)), other)
            == OnStream(process.pushed + [chunk], other)
    {
      OnStreamPush(process.pushed, chunk, other);
      assert OnStream(outputs, other) + [] == OnStream(outputs, other);
      assert OnStream(process.pushed, other) + [] == OnStream(process.pushed, other);
    }
    assert outputs + [] == outputs;
  }

  lemma {:induction false} SendEffect(pid: nat, process: Process, stream: ProcessStream, trace: Trace)
    requires Enabled(process, Send(stream)) && LockInv(process)
    ensures var next, chunk := After(process, Send(stream)), Chunk(stream, ReaderOf(process, stream).data);
            && next.pty == process.pty && (process.pty ==> stream == Stdout)
            && next.buffer == process.buffer && next.pushed == process.pushed
            && TraceAfter(pid, process, Send(stream), trace).outputs == trace.outputs + [chunk]
            && Pending(process, stream) == [chunk] && Pending(next, stream) == []
            && forall other | other != stream :: Pending(next, other) == Pending(process, other)
  {
  }

  lemma {:induction false} SendStep(pid: nat, process: Process, stream: ProcessStream, trace: Trace)
    requires Enabled(process, Send(stream)) && LockInv(process) && DataInv(process, trace.outputs)
    ensures DataInv(After(process, Send(stream)), TraceAfter(pid, process, Send(stream), trace).outputs)
  {
    SendEffect(pid, process, stream, trace);
    var chunk := Chunk(stream, ReaderOf(process, stream).data);
    hide After, TraceAfter, Enabled, LockInv, Pending;
    forall other
      ensures OnStream(trace.outputs + [chunk], other) + Pending(After(process, Send(stream)), other)
           == OnStream(process.pushed, other)
    {
      OnStreamPush(trace.outputs, chunk, other);
      assert OnStream(trace.outputs, other) + [] == OnStream(trace.outputs, other);
      assert OnStream(process.pushed, other) + [] == OnStream(process.pushed, other);
    }
    assert trace.outputs + [chunk] + [] == trace.outputs + [chunk];
  }

  /** A step shows in the trace of its own process only. */
  lemma {:induction false} TraceStep(state: State, id: nat, action: Action, pid: nat)
    requires id in state.processes && Enabled(state.processes[id], action)
    ensures Observed(Do(state, Act(id, action)).log, pid) ==
            if pid == id then TraceAfter(id, state.processes[id], action, Observed(state.log, id))
            else Observed(state.log, pid)
  {
    var emitted := Emitted(id, state.processes[id], action);
    if emitted.Some? {
      assert emitted.value.pid == id;
      ObservedPush(state.log, emitted.value, pid);
      hide Emitted, Enabled, Observed;
    } else {
      hide Emitted, Enabled, Observed;
    }
  }

  lemma {:induction false} OwnStepKeepsInv(pid: nat, process: Process, action: Action, trace: Trace, inTable: bool)
    requires Enabled(process, action) && Inv(process, trace, inTable)
    ensures Inv(After(process, action), TraceAfter(pid, process, action, trace), inTable && action != RemoveFromTable)
  {
    hide After, TraceAfter, Enabled, LockInv, ExitInv, DataInv;
    LockStep(process, action);
    ExitStep(pid, process, action, trace, inTable);
    DataStep(pid, process, action, trace);
  }

  lemma {:induction false} StartedInv(pty: bool)
    ensures Inv(Started(pty), Trace([], 0, true), true)
  {
  }

  lemma {:induction false} DoKeepsInv(state: State, step: Step)
    requires StateInv(state)
    ensures StateInv(Do(state, step))
  {
    hide Inv, Observed, Emitted, After, TraceAfter, Enabled;
    if step.Act? && step.id in state.processes && Enabled(state.processes[step.id], step.action) {
      OwnStepKeepsInv(step.id, state.processes[step.id], step.action, Observed(state.log, step.id),
          step.id in state.table);
      forall pid: nat
        ensures Observed(Do(state, step).log, pid) ==
                if pid == step.id
                then TraceAfter(step.id, state.processes[step.id], step.action, Observed(state.log, step.id))
                else Observed(state.log, pid)
      {
        TraceStep(state, step.id, step.action, pid);
      }
    } else if step.Start? {
      StartedInv(step.pty);
    }
  }

  lemma {:induction false} RunKeepsInv(state: State, steps: seq<Step>)
    requires StateInv(state)
    ensures StateInv(Run(state, steps))
  {
    if steps != [] {
      RunKeepsInv(state, steps[..|steps| - 1]);
      DoKeepsInv(Run(state, steps[..|steps| - 1]), steps[|steps| - 1]);
    }
  }

  lemma {:induction false} ReachableInv(steps: seq<Step>)
    ensures StateInv(Run(INITIAL, steps))
  {
    RunKeepsInv(INITIAL, steps);
  }

  // ----- Safety over all interleavings -----

  predicate IsOutputOf(event: Event, pid: nat)
  {
    event.Output? && event.pid == pid
  }

  predicate IsExitOf(event: Event, pid: nat)
  {
    event.Exited? && event.pid == pid
  }

  /** What the trace summary says, event by event. */
  lemma {:induction false} CleanTraceMeansOrder(log: seq<Event>, pid: nat)
    requires Observed(log, pid).clean && Observed(log, pid).exits <= 1
    ensures forall i, j | 0 <= i < j < |log| && IsExitOf(log[i], pid) ::
          !IsOutputOf(log[j], pid) && !IsExitOf(log[j], pid)
    ensures (exists i | 0 <= i < |log| :: IsExitOf(log[i], pid)) <==> Observed(log, pid).exits == 1
  {
    if log != [] {
      var before, last := log[..|log| - 1], |log| - 1;
      CleanTraceMeansOrder(before, pid);
      forall i | 0 <= i < last && IsExitOf(log[i], pid)
        ensures !IsOutputOf(log[last], pid) && !IsExitOf(log[last], pid)
      {
        assert before[i] == log[i];
      }
      if i :| 0 <= i < |before| && IsExitOf(before[i], pid) {
        assert log[i] == before[i];
      }
      if i :| 0 <= i < |log| && IsExitOf(log[i], pid) {
        assert i < last ==> before[i] == log[i];
      }
    }
  }

  /**
   In every run, a process exits at most once, no output of it follows its exit, and by
   then its id is out of the table of live processes.
   */
  lemma {:induction false} NothingFollowsAnExit(steps: seq<Step>, pid: nat, i: nat)
    requires i < |Run(INITIAL, steps).log| && IsExitOf(Run(INITIAL, steps).log[i], pid)
    ensures var state := Run(INITIAL, steps);
            && pid !in state.table
            && forall j | i < j < |state.log| :: !IsOutputOf(state.log[j], pid) && !IsExitOf(state.log[j], pid)
  {
    ReachableInv(steps);
    CleanTraceMeansOrder(Run(INITIAL, steps).log, pid);
  }

  /**
   Whenever a terminal's gate lock is free, the replay buffer is the end of what was
   published; at any time it is ahead of the log by at most the chunk in the reader's hand.
   */
  lemma {:induction false} TerminalReplayMatchesLog(steps: seq<Step>, pid: nat)
    requires pid in Run(INITIAL, steps).processes && Run(INITIAL, steps).processes[pid].pty
    ensures var state := Run(INITIAL, steps);
            var process, published := state.processes[pid], Observed(state.log, pid).outputs;
            && process.buffer == Replay(published + Pending(process, Stdout))
            && (process.lock == Free ==> process.buffer == Replay(published))
  {
    ReachableInv(steps);
    var state := Run(INITIAL, steps);
    assert Inv(state.processes[pid], Observed(state.log, pid), pid in state.table);
    var published := Observed(state.log, pid).outputs;
    assert published + [] == published;
  }

  /** Two pipe readers may publish in another order than they pushed, but each stream keeps its order. */
  lemma {:induction false} StreamsKeepTheirOrder(steps: seq<Step>, pid: nat, stream: ProcessStream)
    requires pid in Run(INITIAL, steps).processes
    ensures var state := Run(INITIAL, steps);
            var process := state.processes[pid];
            OnStream(Observed(state.log, pid).outputs, stream) + Pending(process, stream)
                == OnStream(process.pushed, stream)
  {
    ReachableInv(steps);
    var state := Run(INITIAL, steps);
    assert Inv(state.processes[pid], Observed(state.log, pid), pid in state.table);
  }

  // ----- After the terminal event -----

  /**
   Once the waiter has published how the process ended, whether that was an exit or a
   failure, no step of any thread publishes output of that process.
   */
  lemma {:induction false} OutputIsFrozenAfterEnd(steps: seq<Step>, more: seq<Step>, pid: nat)
    requires pid in Run(INITIAL, steps).processes && HasPublished(Run(INITIAL, steps).processes[pid])
    ensures var before, after := Run(INITIAL, steps), Run(Run(INITIAL, steps), more);
            && pid in after.processes && HasPublished(after.processes[pid])
            && Observed(after.log, pid).outputs == Observed(before.log, pid).outputs
            && pid !in after.table
  {
    ReachableInv(steps);
    RunKeepsInv(Run(INITIAL, steps), more);
    if more != [] {
      var rest, step := more[..|more| - 1], more[|more| - 1];
      OutputIsFrozenAfterEnd(steps, rest, pid);
      RunKeepsInv(Run(INITIAL, steps), rest);
      EndedStep(Run(Run(INITIAL, steps), rest), step, pid);
    }
  }

  lemma {:induction false} EndedStep(state: State, step: Step, pid: nat)
    requires StateInv(state) && pid in state.processes && HasPublished(state.processes[pid])
    ensures var next := Do(state, step);
            && pid in next.processes && HasPublished(next.processes[pid])
            && Observed(next.log, pid).outputs == Observed(state.log, pid).outputs
  {
    assert Inv(state.processes[pid], Observed(state.log, pid), pid in state.table);
    hide Observed, Emitted, After, TraceAfter, Enabled, DataInv, ExitInv, StateInv;
    if step.Act? && step.id in state.processes && Enabled(state.processes[step.id], step.action) {
      TraceStep(state, step.id, step.action, pid);
      if step.id == pid {
        EndedAction(pid, state.processes[pid], step.action, Observed(state.log, pid));
      }
    }
  }

  lemma {:induction false} EndedAction(pid: nat, process: Process, action: Action, trace: Trace)
    requires LockInv(process) && HasPublished(process) && Enabled(process, action)
    ensures HasPublished(After(process, action))
    ensures TraceAfter(pid, process, action, trace).outputs == trace.outputs
  {
    assert !action.Send?;
  }
}
