/**
 What the process manager reports: the way a child ended, all that its readers read, and
 nothing else; and that the end can always be reported.
 */
module ProcessOutcome {
  import opened Wrappers
  import opened ProcessOutput
  import opened ProcessSupervision

  // ----- How the child ended -----

  /** In the run the child of the process ended in this way, which its waiter noticed. */
  ghost predicate ChildEnded(steps: seq<Step>, pid: nat, completion: Completion)
  {
    exists k :: 0 <= k < |steps| && IsEndOf(steps, k, pid, completion)
  }

  ghost predicate IsEndOf(steps: seq<Step>, k: nat, pid: nat, completion: Completion)
    requires k < |steps|
  {
    && steps[k] == Act(pid, ChildEnds(completion))
    && var before := Run(INITIAL, steps[..k]);
       pid in before.processes && before.processes[pid].waiter == Waiting
  }

  lemma {:induction false} ChildEndedStays(steps: seq<Step>, pid: nat, completion: Completion)
    requires steps != [] && ChildEnded(steps[..|steps| - 1], pid, completion)
    ensures ChildEnded(steps, pid, completion)
  {
    var before := steps[..|steps| - 1];
    var k :| 0 <= k < |before| && IsEndOf(before, k, pid, completion);
    assert before[..k] == steps[..k];
    hide Run;
    assert IsEndOf(steps, k, pid, completion);
  }

  /** What the event of the waiter says of the child: a code if it exited with one, none after a kill. */
  predicate Reports(event: Event, pid: nat, completion: Completion)
  {
    match completion
    case ExitedWith(Some(code)) => event == Exited(pid, Some(code))
    case ExitedWith(None) => event == Exited(pid, None)
    case Killed(_) => event == Exited(pid, None)
    case FailedWith(message) => event == Failed(pid, message)
  }

  /** What a process has published of its end reports what its waiter holds, and no other exit is in the log. */
  ghost predicate LogTells(log: seq<Event>, process: Process, pid: nat)
  {
    && (forall event | event in log && IsExitOf(event, pid) ::
          process.waiter != Waiting && HasPublished(process) && Reports(event, pid, process.waiter.completion))
    && (HasPublished(process) ==>
          process.waiter != Waiting && exists event :: event in log && Reports(event, pid, process.waiter.completion))
  }

  ghost predicate LogTellsOf(state: State, pid: nat)
  {
    if pid in state.processes then LogTells(state.log, state.processes[pid], pid)
    else forall event | event in state.log :: !IsExitOf(event, pid)
  }

  lemma {:induction false} TerminalEventReports(pid: nat, completion: Completion)
    ensures Reports(TerminalEvent(pid, completion), pid, completion)
  {
  }

  /** What an action does to the waiter and to the exits in the log. */
  lemma {:induction false} ActionOnWaiter(pid: nat, process: Process, action: Action)
    requires Enabled(process, action) && LockInv(process)
    ensures var next, emitted := After(process, action), Emitted(pid, process, action);
            && (action.ChildEnds? ==> process.waiter == Waiting && next.waiter == Completed(action.completion))
            && (!action.ChildEnds? && process.waiter == Waiting ==> next.waiter == Waiting)
            && (process.waiter != Waiting ==>
                  next.waiter != Waiting && next.waiter.completion == process.waiter.completion)
            && (HasPublished(next) <==> HasPublished(process) || action == Publish)
            && (emitted.Some? && IsExitOf(emitted.value, pid) ==> action == Publish)
            && (action == Publish ==>
                  process.waiter != Waiting && emitted == Some(TerminalEvent(pid, process.waiter.completion)))
            && (emitted.Some? ==> emitted.value.pid == pid)
  {
    hide Replay;
  }

  lemma {:induction false} LogTellsOn(log: seq<Event>, process: Process, pid: nat, action: Action)
    requires Enabled(process, action) && LockInv(process) && LogTells(log, process, pid)
    ensures var emitted := Emitted(pid, process, action);
            LogTells(if emitted.Some? then log + [emitted.value] else log, After(process, action), pid)
  {
    ActionOnWaiter(pid, process, action);
    var next, emitted := After(process, action), Emitted(pid, process, action);
    hide Enabled, After, Emitted, LockInv;
    if action == Publish {
      TerminalEventReports(pid, process.waiter.completion);
      assert emitted.value in log + [emitted.value];
      ExitsAreReported(log, pid, process.waiter.completion, emitted.value);
    }
    hide Reports, TerminalEvent;
    if HasPublished(process) && emitted.Some? {
      var event :| event in log && Reports(event, pid, process.waiter.completion);
      assert event in log + [emitted.value];
    }
  }

  lemma {:induction false} ExitsAreReported(log: seq<Event>, pid: nat, completion: Completion, last: Event)
    requires (forall event | event in log && IsExitOf(event, pid) :: Reports(event, pid, completion))
    requires Reports(last, pid, completion)
    ensures forall event | event in log + [last] && IsExitOf(event, pid) :: Reports(event, pid, completion)
  {
    hide Reports;
  }

  lemma {:induction false} OthersDoNotShow(log: seq<Event>, last: Event, process: Process, pid: nat)
    requires LogTells(log, process, pid) && last.pid != pid
    ensures LogTells(log + [last], process, pid)
  {
    hide Reports;
    if HasPublished(process) {
      var event :| event in log && Reports(event, pid, process.waiter.completion);
      assert event in log + [last];
    }
  }

  lemma {:induction false} LogTellsStep(state: State, step: Step, pid: nat)
    requires StateInv(state) && LogTellsOf(state, pid)
    ensures LogTellsOf(Do(state, step), pid)
  {
    hide Observed, Reports, ExitInv, DataInv;
    if step.Act? && step.id in state.processes && Enabled(state.processes[step.id], step.action) {
      var process := state.processes[step.id];
      assert Inv(process, Observed(state.log, step.id), step.id in state.table);
      ActionOnWaiter(step.id, process, step.action);
      var emitted := Emitted(step.id, process, step.action);
      hide Enabled, After, Emitted, StateInv, LogTells, LockInv;
      if step.id == pid {
        LogTellsOn(state.log, process, pid, step.action);
      } else if emitted.Some? && pid in state.processes {
        OthersDoNotShow(state.log, emitted.value, state.processes[pid], pid);
      }
    }
    hide StateInv;
  }

  lemma {:induction false} RunLogTells(steps: seq<Step>, pid: nat)
    ensures LogTellsOf(Run(INITIAL, steps), pid)
  {
    if steps != [] {
      hide LogTellsOf, Do, StateInv;
      var before := steps[..|steps| - 1];
      RunLogTells(before, pid);
      ReachableInv(before);
      LogTellsStep(Run(INITIAL, before), steps[|steps| - 1], pid);
    }
  }

  /** Whatever the waiter holds, the child ended in that way. */
  lemma {:induction false} WaiterKnows(steps: seq<Step>, pid: nat)
    ensures var state := Run(INITIAL, steps);
            pid in state.processes && state.processes[pid].waiter != Waiting ==>
              ChildEnded(steps, pid, state.processes[pid].waiter.completion)
  {
    if steps != [] {
      var earlier, step := steps[..|steps| - 1], steps[|steps| - 1];
      var before := Run(INITIAL, earlier);
      assert Run(INITIAL, steps) == Do(before, step);
      WaiterKnows(earlier, pid);
      ReachableInv(earlier);
      hide Run;
      if pid in before.processes && before.processes[pid].waiter != Waiting {
        ChildEndedStays(steps, pid, before.processes[pid].waiter.completion);
      }
      if step.Act? && step.id == pid && pid in before.processes && Enabled(before.processes[pid], step.action) {
        assert Inv(before.processes[pid], Observed(before.log, pid), pid in before.table);
        ActionOnWaiter(pid, before.processes[pid], step.action);
        if step.action.ChildEnds? {
          assert IsEndOf(steps, |steps| - 1, pid, step.action.completion);
        }
      }
      hide Enabled, After, Emitted, StateInv, ChildEnded, IsEndOf;
    }
  }

  /**
   In every run an exit in the log tells how the child ended: with the code it exited
   with, if any, and without one after a kill; and it is never there if waiting failed.
   */
  lemma {:induction false} ExitTellsHowTheChildEnded(steps: seq<Step>, pid: nat, code: Option<int>)
    requires Exited(pid, code) in Run(INITIAL, steps).log
    ensures || ChildEnded(steps, pid, ExitedWith(code))
            || (code == None && exists error :: ChildEnded(steps, pid, Killed(error)))
  {
    RunLogTells(steps, pid);
    WaiterKnows(steps, pid);
    hide Run, ChildEnded;
    assert IsExitOf(Exited(pid, code), pid);
  }

  /** Once the waiter has published, the log says how the child ended, and a failed wait shows as a failure only. */
  lemma {:induction false} PublishedEndIsTrue(steps: seq<Step>, pid: nat)
    requires pid in Run(INITIAL, steps).processes && HasPublished(Run(INITIAL, steps).processes[pid])
    ensures var state := Run(INITIAL, steps);
            state.processes[pid].waiter != Waiting &&
            match state.processes[pid].waiter.completion
            case ExitedWith(code) => ChildEnded(steps, pid, ExitedWith(code)) && Exited(pid, code) in state.log
            case Killed(error) => ChildEnded(steps, pid, Killed(error)) && Exited(pid, None) in state.log
            case FailedWith(message) =>
              && ChildEnded(steps, pid, FailedWith(message)) && Failed(pid, message) in state.log
              && forall code :: Exited(pid, code) !in state.log
  {
    RunLogTells(steps, pid);
    WaiterKnows(steps, pid);
    hide Run, ChildEnded;
    var state := Run(INITIAL, steps);
    forall code | Exited(pid, code) in state.log
      ensures IsExitOf(Exited(pid, code), pid)
    {
    }
  }

  // ----- The end can always be published -----

  /** What the process can do next towards publishing its end, without anything more being read. */
  function Onward(process: Process): Action
  {
    match process.waiter
    case Completed(_) => RemoveFromTable
    case Removed(_) => if process.pty || process.stdout == Finished then FinishDrain else Drain(process, Stdout)
    case StdoutDrained(_) => if process.stderr == Finished then FinishDrain else Drain(process, Stderr)
    case Drained(_) =>
      if !process.pty then Publish
      else if process.lock == Free then CloseGate
      else if process.stdout.InGate? then Push(Stdout)
      else if process.stdout.Pushed? then Send(Stdout)
      else LeaveGate
    case Locked(_) => CloseGate
    case _ => Publish
  }

  /** A pipe's reader publishes what it holds and is then cancelled. */
  function Drain(process: Process, stream: ProcessStream): Action
  {
    var reader := ReaderOf(process, stream);
    if reader.Holding? then Push(stream)
    else if reader.Pushed? then Send(stream)
    else if IsAborted(process, stream) then Cancelled(stream)
    else AbortReader(stream)
  }

  function ReaderDistance(reader: Reader, isAborted: bool): nat
  {
    match reader
    case Holding(_) => 5
    case InGate(_) => 5
    case Pushed(_) => 4
    case Sent => 3
    case Reading => if isAborted then 1 else 2
    case Finished => 0
  }

  function WaiterDistance(waiter: Waiter): nat
  {
    match waiter
    case Completed(_) => 6
    case Removed(_) => 5
    case StdoutDrained(_) => 4
    case Drained(_) => 3
    case Locked(_) => 2
    case Closed(_) => 1
    case _ => 0
  }

  function Distance(process: Process): nat
  {
    20 * WaiterDistance(process.waiter) + ReaderDistance(process.stdout, process.stdoutAborted)
    + ReaderDistance(process.stderr, process.stderrAborted)
  }

  /** A pipe's readers never touch the gate, and a terminal's waiter drains one reader only. */
  ghost predicate ReadersInv(process: Process)
  {
    && (!process.pty ==>
          && !process.stdout.InGate? && process.stdout != Sent && !process.stderr.InGate? && process.stderr != Sent)
    && (process.pty ==> !process.waiter.StdoutDrained?)
  }

  ghost predicate IsOnward(process: Process, action: Action)
  {
    && Enabled(process, action) && !action.ChildEnds?
    && (HasPublished(After(process, action)) || Distance(After(process, action)) < Distance(process))
  }

  lemma {:induction false} OnwardIsEnabled(process: Process)
    requires LockInv(process) && ReadersInv(process) && process.waiter != Waiting && !HasPublished(process)
    ensures IsOnward(process, Onward(process))
  {
    hide Replay, Drain, IsOnward;
    if process.pty {
      TerminalGoesOnward(process);
    } else if process.waiter.Removed? && process.stdout != Finished {
      DrainGoesOnward(process, Stdout);
    } else if process.waiter.StdoutDrained? && process.stderr != Finished {
      DrainGoesOnward(process, Stderr);
    } else {
      PipeGoesOnward(process);
    }
  }

  lemma {:induction false} TerminalGoesOnward(process: Process)
    requires process.pty && GateInv(process) && ReadersInv(process)
    requires process.waiter != Waiting && !HasPublished(process)
    ensures IsOnward(process, Onward(process))
  {
    hide Replay, Drain;
  }

  lemma {:induction false} PipeGoesOnward(process: Process)
    requires !process.pty && PipeInv(process) && process.waiter != Waiting && !HasPublished(process)
    requires process.waiter.Removed? ==> process.stdout == Finished
    requires process.waiter.StdoutDrained? ==> process.stderr == Finished
    ensures IsOnward(process, Onward(process))
  {
    hide Replay, Drain;
  }

  lemma {:induction false} DrainGoesOnward(process: Process, stream: ProcessStream)
    requires !process.pty && ReadersInv(process) && ReaderOf(process, stream) != Finished
    requires if stream == Stdout then process.waiter.Removed? else process.waiter.StdoutDrained?
    ensures IsOnward(process, Drain(process, stream))
  {
    hide Replay;
  }

  lemma {:induction false} ReadersStep(process: Process, action: Action)
    requires Enabled(process, action) && ReadersInv(process)
    ensures ReadersInv(After(process, action))
  {
    hide Replay;
  }

  lemma {:induction false} ReachableReaders(steps: seq<Step>, pid: nat)
    ensures pid in Run(INITIAL, steps).processes ==> ReadersInv(Run(INITIAL, steps).processes[pid])
  {
    if steps != [] {
      var before, step := Run(INITIAL, steps[..|steps| - 1]), steps[|steps| - 1];
      ReachableReaders(steps[..|steps| - 1], pid);
      if step.Act? && step.id == pid && pid in before.processes && Enabled(before.processes[pid], step.action) {
        ReadersStep(before.processes[pid], step.action);
      }
      hide Enabled, After, Emitted;
    }
  }

  predicate AreOf(steps: seq<Step>, pid: nat)
  {
    forall k | 0 <= k < |steps| :: steps[k].Act? && steps[k].id == pid && !steps[k].action.Read?
  }

  lemma {:induction false} OnwardStep(state: State, pid: nat) returns (next: State)
    requires StateInv(state) && pid in state.processes && ReadersInv(state.processes[pid])
    requires state.processes[pid].waiter != Waiting && !HasPublished(state.processes[pid])
    ensures next == Do(state, Act(pid, Onward(state.processes[pid])))
    ensures StateInv(next) && pid in next.processes && ReadersInv(next.processes[pid])
    ensures var before, after := state.processes[pid], next.processes[pid];
            && after.waiter != Waiting && after.waiter.completion == before.waiter.completion
            && (HasPublished(after) || Distance(after) < Distance(before))
  {
    var process := state.processes[pid];
    var action := Onward(process);
    assert Inv(process, Observed(state.log, pid), pid in state.table);
    OnwardIsEnabled(process);
    ActionOnWaiter(pid, process, action);
    ReadersStep(process, action);
    next := Do(state, Act(pid, action));
    DoKeepsInv(state, Act(pid, action));
    hide StateInv, LockInv, ExitInv, DataInv, ReadersInv, Distance, Onward, Enabled, After, Emitted;
    assert next.processes[pid] == After(process, action);
  }

  /** The process has published its end, for the given reason. */
  predicate HasEndedWith(state: State, pid: nat, completion: Completion)
  {
    && pid in state.processes && HasPublished(state.processes[pid]) && state.processes[pid].waiter != Waiting
    && state.processes[pid].waiter.completion == completion
  }

  lemma {:induction false} EndIsReachable(state: State, pid: nat) returns (more: seq<Step>)
    requires StateInv(state) && pid in state.processes && ReadersInv(state.processes[pid])
    requires state.processes[pid].waiter != Waiting
    ensures AreOf(more, pid) && HasEndedWith(Run(state, more), pid, state.processes[pid].waiter.completion)
    decreases if HasPublished(state.processes[pid]) then 0 else 1 + Distance(state.processes[pid])
  {
    hide Do, StateInv, ReadersInv, Distance, Run, Onward, Observed;
    if HasPublished(state.processes[pid]) {
      more := [];
      RunNothing(state);
    } else {
      var next := OnwardStep(state, pid);
      var later := EndIsReachable(next, pid);
      more := OneMoreStep(state, pid, later);
    }
  }

  lemma {:induction false} OneMoreStep(state: State, pid: nat, later: seq<Step>) returns (more: seq<Step>)
    requires pid in state.processes && AreOf(later, pid)
    ensures AreOf(more, pid) && Run(state, more) == Run(Do(state, Act(pid, Onward(state.processes[pid]))), later)
  {
    hide Do, Run, Onward;
    var step := Act(pid, Onward(state.processes[pid]));
    OnwardReadsNothing(state.processes[pid]);
    more := [step] + later;
    RunFirst(state, step, later);
  }

  lemma {:induction false} RunNothing(state: State)
    ensures Run(state, []) == state
  {
  }

  lemma {:induction false} OnwardReadsNothing(process: Process)
    ensures !Onward(process).Read?
  {
  }

  lemma {:induction false} RunFirst(state: State, step: Step, later: seq<Step>)
    ensures Run(state, [step] + later) == Run(Do(state, step), later)
  {
    hide Do;
    var all := [step] + later;
    if later == [] {
      assert all == [step] && [step][..0] == [];
      assert Run(state, [step]) == Do(Run(state, []), step);
    } else {
      RunFirst(state, step, later[..|later| - 1]);
      assert all[..|all| - 1] == [step] + later[..|later| - 1];
    }
  }

  lemma {:induction false} RunAppend(state: State, steps: seq<Step>, more: seq<Step>)
    ensures Run(state, steps + more) == Run(Run(state, steps), more)
  {
    hide Do;
    if more == [] {
      assert steps + more == steps;
    } else {
      RunAppend(state, steps, more[..|more| - 1]);
      assert (steps + more)[..|steps + more| - 1] == steps + more[..|more| - 1];
    }
  }

  /**
   From any reachable state in which the child has ended, steps of this process alone
   lead to its end being published, whatever its readers were doing, and without reading
   anything more.
   */
  lemma {:induction false} EndCanBePublished(steps: seq<Step>, pid: nat) returns (more: seq<Step>)
    requires pid in Run(INITIAL, steps).processes && Run(INITIAL, steps).processes[pid].waiter != Waiting
    ensures AreOf(more, pid)
    ensures HasEndedWith(Run(INITIAL, steps + more), pid, Run(INITIAL, steps).processes[pid].waiter.completion)
  {
    hide StateInv, ReadersInv, Run;
    ReachableInv(steps);
    ReachableReaders(steps, pid);
    more := EndIsReachable(Run(INITIAL, steps), pid);
    RunAppend(INITIAL, steps, more);
  }

  // ----- All that was read, and nothing else -----

  /** The chunks that the readers of the process have read from the stream, in order. */
  function ReadSoFar(steps: seq<Step>, pid: nat, stream: ProcessStream): seq<Chunk>
  {
    if steps == [] then []
    else
      var earlier, step := steps[..|steps| - 1], steps[|steps| - 1];
      var before := Run(INITIAL, earlier);
      ReadSoFar(earlier, pid, stream) +
      (if step.Act? && step.id == pid && step.action.Read? && step.action.stream == stream
          && pid in before.processes && Enabled(before.processes[pid], step.action)
       then [Chunk(stream, step.action.data)] else [])
  }

  /** The chunk that is read but not yet in the buffer. */
  function Held(process: Process, stream: ProcessStream): seq<Chunk>
  {
    var reader := ReaderOf(process, stream);
    if reader.Holding? || reader.InGate? then [Chunk(stream, reader.data)] else []
  }

  /**
   What is in the history of the buffer, and in the reader's hand, is what was read; a
   closed gate lets no more in.
   */
  ghost predicate KeepsWhatIsRead(process: Process, stream: ProcessStream, read: seq<Chunk>)
  {
    if process.pty && !process.gateOpen then OnStream(process.pushed, stream) <= read
    else OnStream(process.pushed, stream) + Held(process, stream) == read
  }

  lemma {:induction false} ReadingStep(process: Process, action: Action, stream: ProcessStream, read: seq<Chunk>)
    requires Enabled(process, action) && LockInv(process) && ReadersInv(process)
    requires KeepsWhatIsRead(process, stream, read)
    ensures KeepsWhatIsRead(After(process, action), stream,
                            read + if action.Read? && action.stream == stream then [Chunk(stream, action.data)] else [])
  {
    hide Replay, OnStream;
    assert read + [] == read && OnStream(process.pushed, stream) + [] == OnStream(process.pushed, stream);
    if action.Push? {
      var data := ReaderOf(process, action.stream).data;
      OnStreamPush(process.pushed, Chunk(action.stream, data), stream);
      hide LockInv;
    } else if action.Read? {
      hide LockInv;
    } else {
      NothingIsRead(process, action, stream);
      hide Enabled, After, LockInv, ReadersInv, Held;
    }
  }

  /** No other action moves chunks, except that a closed gate drops one. */
  lemma {:induction false} NothingIsRead(process: Process, action: Action, stream: ProcessStream)
    requires Enabled(process, action) && !action.Push? && !action.Read?
    ensures var next := After(process, action);
            && next.pushed == process.pushed && next.pty == process.pty && (next.gateOpen ==> process.gateOpen)
            && (Held(next, stream) == Held(process, stream) || (process.pty && !process.gateOpen))
  {
    hide Replay;
    var reader, after := ReaderOf(process, stream), ReaderOf(After(process, action), stream);
    assert after != reader ==>
             || (reader.Holding? && after == InGate(reader.data))
             || (reader.InGate? && process.pty && !process.gateOpen)
             || (!reader.Holding? && !reader.InGate? && !after.Holding? && !after.InGate?);
    hide Enabled, After;
  }

  lemma {:induction false} RunKeepsWhatIsRead(steps: seq<Step>, pid: nat, stream: ProcessStream)
    ensures var state := Run(INITIAL, steps);
            if pid in state.processes then KeepsWhatIsRead(state.processes[pid], stream, ReadSoFar(steps, pid, stream))
            else ReadSoFar(steps, pid, stream) == []
  {
    if steps != [] {
      var earlier, step := steps[..|steps| - 1], steps[|steps| - 1];
      var before := Run(INITIAL, earlier);
      assert Run(INITIAL, steps) == Do(before, step);
      RunKeepsWhatIsRead(earlier, pid, stream);
      ReachableInv(earlier);
      ReachableReaders(earlier, pid);
      hide Run, StateInv;
      ReadMore(step, pid, stream, before, ReadSoFar(earlier, pid, stream));
    }
  }

  lemma {:induction false} ReadMore(
    step: Step, pid: nat, stream: ProcessStream, before: State, read: seq<Chunk>)
    requires StateInv(before) && (pid in before.processes ==> ReadersInv(before.processes[pid]))
    requires if pid in before.processes then KeepsWhatIsRead(before.processes[pid], stream, read) else read == []
    ensures var after := Do(before, step);
            var isRead := step.Act? && step.id == pid && step.action.Read? && step.action.stream == stream
                          && pid in before.processes && Enabled(before.processes[pid], step.action);
            var now := read + if isRead then [Chunk(stream, step.action.data)] else [];
            if pid in after.processes then KeepsWhatIsRead(after.processes[pid], stream, now) else now == []
  {
    assert read + [] == read;
    if step.Act? && step.id == pid && pid in before.processes && Enabled(before.processes[pid], step.action) {
      assert Inv(before.processes[pid], Observed(before.log, pid), pid in before.table);
      hide Enabled, After, Emitted, StateInv, KeepsWhatIsRead, LockInv, ReadersInv, ExitInv, DataInv, Observed;
      ReadingStep(before.processes[pid], step.action, stream, read);
    } else if step.Start? && pid !in before.processes {
      StartedHasReadNothing(step.pty, stream);
    }
    hide Enabled, After, Emitted, StateInv, KeepsWhatIsRead, ReadersInv;
  }

  lemma {:induction false} StartedHasReadNothing(pty: bool, stream: ProcessStream)
    ensures KeepsWhatIsRead(Started(pty), stream, [])
  {
  }

  /**
   What is published on a stream is what was read from it, in order, up to the chunk in
   the reader's hand; after a terminal's gate has closed it is the beginning of it.
   */
  lemma {:induction false} PublishedIsRead(steps: seq<Step>, pid: nat, stream: ProcessStream)
    requires pid in Run(INITIAL, steps).processes
    ensures var state, read := Run(INITIAL, steps), ReadSoFar(steps, pid, stream);
            var process, published := state.processes[pid], OnStream(Observed(state.log, pid).outputs, stream);
            && published <= read
            && (!process.pty || process.gateOpen ==>
                  published + Pending(process, stream) + Held(process, stream) == read)
  {
    hide Run, OnStream, Observed, ReadSoFar;
    StreamsKeepTheirOrder(steps, pid, stream);
    RunKeepsWhatIsRead(steps, pid, stream);
    var state := Run(INITIAL, steps);
    var published := OnStream(Observed(state.log, pid).outputs, stream);
    assert published <= published + Pending(state.processes[pid], stream);
    assert published + Pending(state.processes[pid], stream)
        <= published + Pending(state.processes[pid], stream) + Held(state.processes[pid], stream);
  }

  /** Read errors, control errors and failed kills are reported under the process's id, with their message. */
  lemma {:induction false} ErrorsAreReported(state: State, pid: nat, action: Action, message: string)
    requires pid in state.processes && Enabled(state.processes[pid], action)
    requires || (action.ReadError? && action.message == message)
             || action == ControlError(message)
             || (action == PublishKillError && state.processes[pid].waiter.completion == Killed(Some(message)))
    ensures Do(state, Act(pid, action)).log == state.log + [Failed(pid, message)]
  {
  }
}
