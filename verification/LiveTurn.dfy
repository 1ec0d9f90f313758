/**
 One live turn of the app server: a loop over a shared stream of JSON-RPC lines, an
 abort signal and a deadline. It latches the id of its own turn, forwards only what
 belongs to it, answers the server's requests and stops at the end of the turn.
 */
module LiveTurn {
  import opened Wrappers

  // ----- Messages -----

  /** A JSON member: missing, present with another type, or a string. */
  datatype Field = Absent | NotText | Text(value: string)

  /** The members of a notification's parameters that the code reads; `rest` stands for all others. */
  datatype Params = Params(
    threadIdCamel: Field, threadIdSnake: Field,
    turnIdCamel: Field, turnIdSnake: Field, turnObjectId: Field, turnObjectStatus: Field,
    itemType: Option<Field>, ownType: Field, rest: nat)

  /** A line of the stream. A message without a string method is a response. */
  datatype Line = NotJson | Message(name: Option<string>, id: Option<nat>, params: Params)

  function FirstPresent(a: Field, b: Field): Field
  {
    if a == Absent then b else a
  }

  function AsText(field: Field): Option<string>
  {
    match field
    case Text(value) => Some(value)
    case _ => None
  }

  function NotificationThreadId(params: Params): Option<string>
  {
    AsText(FirstPresent(params.threadIdCamel, params.threadIdSnake))
  }

  function NotificationTurnId(params: Params): Option<string>
  {
    AsText(FirstPresent(params.turnIdCamel, FirstPresent(params.turnIdSnake, params.turnObjectId)))
  }

  predicate MatchesThread(params: Params, threadId: string)
  {
    NotificationThreadId(params).None? || NotificationThreadId(params) == Some(threadId)
  }

  predicate MatchesTurn(params: Params, turnId: Option<string>)
  {
    turnId.None? || NotificationTurnId(params) == turnId
  }

  predicate IsThreadLevel(name: string)
  {
    name == "thread/tokenUsage/updated" || name == "thread/status/changed" || name == "thread/settings/updated"
  }

  predicate ConfirmsActivity(name: string, params: Params)
  {
    || name == "item/agentMessage/delta" || name == "item/reasoning/summaryTextDelta"
    || name == "item/reasoning/textDelta" || name == "item/commandExecution/outputDelta"
    || name == "turn/plan/updated" || name == "turn/diff/updated" || name == "turn/completed"
    || name == "error" || name == "warning" || name == "configWarning"
    || (name == "item/completed" &&
        var item := AsText(if params.itemType.Some? then params.itemType.value else params.ownType);
        item.Some? && item.value !in {"", "userMessage", "contextCompaction", "enteredReviewMode"})
  }

  // ----- What the loop sends and reports -----

  datatype Reply =
    | Decline | NoPermissions | NoAnswers | DeclineElicitation | ToolFailure | Denied | ErrorReply(code: int)

  function ReplyTo(name: string): Reply
  {
    if name == "item/commandExecution/requestApproval" || name == "item/fileChange/requestApproval" then Decline
    else if name == "item/permissions/requestApproval" then NoPermissions
    else if name == "item/tool/requestUserInput" then NoAnswers
    else if name == "mcpServer/elicitation/request" then DeclineElicitation
    else if name == "item/tool/call" then ToolFailure
    else if name == "account/chatgptAuthTokens/refresh" || name == "attestation/generate" then ErrorReply(-32000)
    else if name == "execCommandApproval" || name == "applyPatchApproval" then Denied
    else ErrorReply(-32601)
  }

  datatype Sent = Response(id: nat, reply: Reply) | Interrupt(requestId: int, threadId: string, turnId: string)

  datatype TurnEvent = TurnAssociated(turnId: string) | Notification(name: string, params: Params)

  datatype TerminalStatus = TurnCompleted | TurnInterrupted | TurnFailed

  datatype Outcome = Outcome(threadId: string, turnId: Option<string>, status: TerminalStatus, turn: Option<Params>)

  datatype LoopError = InvalidJson | WriteFailed | ReadFailed | StreamClosed

  // ----- Handling one line -----

  datatype Core = Core(turnId: Option<string>, sawActivity: bool, events: seq<TurnEvent>, sent: seq<Sent>)

  /** A notification latches the turn id when none is known and it is addressed to this thread. */
  function Latch(core: Core, threadId: string, params: Params): Core
  {
    var observed := NotificationTurnId(params);
    if MatchesThread(params, threadId) && core.turnId.None? && observed.Some?
    then core.(turnId := observed, events := core.events + [TurnAssociated(observed.value)])
    else core
  }

  predicate ShouldForward(core: Core, name: string, params: Params)
  {
    if IsThreadLevel(name)
    then core.sawActivity && (MatchesTurn(params, core.turnId) || NotificationTurnId(params).None?)
    else MatchesTurn(params, core.turnId)
  }

  function Forward(core: Core, threadId: string, name: string, params: Params): Core
  {
    if MatchesThread(params, threadId) && ShouldForward(core, name, params)
    then core.(events := core.events + [Notification(name, params)])
    else core
  }

  function Confirm(core: Core, threadId: string, name: string, params: Params): Core
  {
    if MatchesThread(params, threadId) && MatchesTurn(params, core.turnId) && NotificationTurnId(params).Some?
       && ConfirmsActivity(name, params)
    then core.(sawActivity := true)
    else core
  }

  function Notified(core: Core, threadId: string, name: string, params: Params): Core
  {
    Confirm(Forward(Latch(core, threadId, params), threadId, name, params), threadId, name, params)
  }

  function StatusOf(params: Params): TerminalStatus
  {
    match AsText(params.turnObjectStatus)
    case None => TurnCompleted
    case Some(status) =>
      if status == "completed" then TurnCompleted
      else if status == "interrupted" then TurnInterrupted
      else TurnFailed
  }

  function Handled(core: Core, threadId: string, line: Line, writeOk: bool): (Core, Result<Option<Outcome>, LoopError>)
  {
    if line.NotJson? then (core, Err(InvalidJson))
    else if line.name.None? then (core, Ok(None))
    else if line.id.Some? then
      if writeOk then (core.(sent := core.sent + [Response(line.id.value, ReplyTo(line.name.value))]), Ok(None))
      else (core, Err(WriteFailed))
    else
      var name := line.name.value;
      var next := Notified(core, threadId, name, line.params);
      if name == "turn/completed" && MatchesThread(line.params, threadId) && MatchesTurn(line.params, next.turnId)
      then (next, Ok(Some(Outcome(threadId, next.turnId, StatusOf(line.params), Some(line.params)))))
      else (next, Ok(None))
  }

  // ----- The loop -----

  /** What the loop can wake up for; `writeOk` tells whether a write it triggers succeeds. */
  datatype Input =
    | LineArrives(line: Line, writeOk: bool)
    | StreamCloses
    | ReadFails
    | AbortArrives(writeOk: bool)
    | DeadlinePasses

  datatype Ending = Running | Finished(outcome: Outcome) | Broken(error: LoopError)

  datatype Loop = Loop(core: Core, abortRequested: bool, deadlineArmed: bool, interruptId: int, ending: Ending)

  /** The state in which the loop starts, after `turn/start` was answered. */
  function Started(turnId: Option<string>): Loop
  {
    Loop(Core(turnId, false, if turnId.Some? then [TurnAssociated(turnId.value)] else [], []), false, false, 4, Running)
  }

  function Step(loop: Loop, threadId: string, input: Input): Loop
  {
    if !loop.ending.Running? then loop
    else
      match input
      case LineArrives(line, writeOk) =>
        var (core, result) := Handled(loop.core, threadId, line, writeOk);
        loop.(
          core := core,
          ending := match result
                    case Err(error) => Broken(error)
                    case Ok(None) => Running
                    case Ok(Some(outcome)) => Finished(outcome))
      case StreamCloses => loop.(ending := Broken(StreamClosed))
      case ReadFails => loop.(ending := Broken(ReadFailed))
      case AbortArrives(writeOk) =>
        if loop.abortRequested then loop
        else if loop.core.turnId.None? then
          loop.(abortRequested := true, ending := Finished(Outcome(threadId, None, TurnInterrupted, None)))
        else if !writeOk then loop.(abortRequested := true, ending := Broken(WriteFailed))
        else
          loop.(
            core := loop.core.(
              sent := loop.core.sent + [Interrupt(loop.interruptId, threadId, loop.core.turnId.value)]),
            abortRequested := true, deadlineArmed := true, interruptId := loop.interruptId + 1)
      case DeadlinePasses =>
        if !loop.deadlineArmed then loop
        else loop.(ending := Finished(Outcome(threadId, loop.core.turnId, TurnInterrupted, None)))
  }

  function Run(loop: Loop, threadId: string, inputs: seq<Input>): Loop
    decreases |inputs|
  {
    if inputs == [] then loop else Run(Step(loop, threadId, inputs[0]), threadId, inputs[1..])
  }

  // ----- Non-interference -----

  predicate IsNotification(input: Input)
  {
    input.LineArrives? && input.line.Message? && input.line.name.Some? && input.line.id.None?
  }

  predicate IsForOtherThread(input: Input, threadId: string)
  {
    IsNotification(input) && !MatchesThread(input.line.params, threadId)
  }

  predicate IsForOtherTurn(input: Input, turnId: string)
  {
    IsNotification(input) && NotificationTurnId(input.line.params).Some?
    && NotificationTurnId(input.line.params) != Some(turnId)
  }

  function Without(inputs: seq<Input>, dropped: Input -> bool): seq<Input>
  {
    if inputs == [] then []
    else (if dropped(inputs[0]) then [] else [inputs[0]]) + Without(inputs[1..], dropped)
  }

  lemma {:induction false} LatchedStays(loop: Loop, threadId: string, input: Input)
    requires loop.core.turnId.Some?
    ensures Step(loop, threadId, input).core.turnId == loop.core.turnId
  {
    hide ReplyTo, ConfirmsActivity, IsThreadLevel, StatusOf, NotificationTurnId, NotificationThreadId;
  }

  /**
   Once a turn id is latched, the traffic of other threads and of other turns has no
   effect at all: deleting any part of it leaves events, replies, latch, flag and
   outcome as they are.
   */
  lemma {:induction false} OthersAreInvisible(
    loop: Loop, threadId: string, turnId: string, inputs: seq<Input>, dropped: Input -> bool)
    requires loop.core.turnId == Some(turnId)
    requires forall input :: dropped(input) ==> IsForOtherThread(input, threadId) || IsForOtherTurn(input, turnId)
    ensures Run(loop, threadId, Without(inputs, dropped)) == Run(loop, threadId, inputs)
    decreases |inputs|
  {
    if inputs != [] {
      var next := Step(loop, threadId, inputs[0]);
      LatchedStays(loop, threadId, inputs[0]);
      OthersAreInvisible(next, threadId, turnId, inputs[1..], dropped);
      if dropped(inputs[0]) {
        assert next == loop;
        assert [] + Without(inputs[1..], dropped) == Without(inputs[1..], dropped);
      } else {
        assert Without(inputs, dropped)[1..] == Without(inputs[1..], dropped);
      }
    }
  }

  /** Other threads are invisible even before a turn id is latched. */
  lemma {:induction false} OtherThreadsAreInvisible(
    loop: Loop, threadId: string, inputs: seq<Input>, dropped: Input -> bool)
    requires forall input :: dropped(input) ==> IsForOtherThread(input, threadId)
    ensures Run(loop, threadId, Without(inputs, dropped)) == Run(loop, threadId, inputs)
    decreases |inputs|
  {
    if inputs != [] {
      OtherThreadsAreInvisible(Step(loop, threadId, inputs[0]), threadId, inputs[1..], dropped);
      if dropped(inputs[0]) {
        assert Step(loop, threadId, inputs[0]) == loop;
        assert [] + Without(inputs[1..], dropped) == Without(inputs[1..], dropped);
      } else {
        assert Without(inputs, dropped)[1..] == Without(inputs[1..], dropped);
      }
    }
  }

  /**
   And nothing more is invisible. Once a turn id is latched, the only other notifications
   without effect are thread-level ones before the turn has shown activity, and those
   that name no turn and are not thread-level; before, only thread-level ones that would
   not latch.
   */
  lemma {:induction false} ExactlyOthersAreInvisible(loop: Loop, threadId: string, input: Input)
    requires loop.ending.Running? && IsNotification(input)
    ensures var params, isThreadLevel := input.line.params, IsThreadLevel(input.line.name.value);
            var isSilent := isThreadLevel && !loop.core.sawActivity;
            Step(loop, threadId, input) == loop <==>
              || IsForOtherThread(input, threadId)
              || (match loop.core.turnId
                  case Some(turnId) =>
                    IsForOtherTurn(input, turnId) || isSilent || (NotificationTurnId(params).None? && !isThreadLevel)
                  case None => isSilent && NotificationTurnId(params).None?)
  {
    var params, name := input.line.params, input.line.name.value;
    if ConfirmsActivity(name, params) {
      ActivityIsNotThreadLevel(name, params);
    }
    var latched := Latch(loop.core, threadId, params);
    if MatchesThread(params, threadId) && ShouldForward(latched, name, params) {
      assert |Forward(latched, threadId, name, params).events| == |latched.events| + 1;
    }
    hide IsThreadLevel, ConfirmsActivity;
  }

  // ----- What every run keeps -----

  /** A forwarded notification that shows activity of the given turn. */
  predicate IsActivityOf(event: TurnEvent, turnId: Option<string>)
  {
    && event.Notification? && ConfirmsActivity(event.name, event.params)
    && NotificationTurnId(event.params).Some? && NotificationTurnId(event.params) == turnId
  }

  ghost predicate HasActivity(events: seq<TurnEvent>, count: nat, turnId: Option<string>)
    requires count <= |events|
  {
    exists j | 0 <= j < count :: IsActivityOf(events[j], turnId)
  }

  /**
   An announcement is of the latched turn. A forwarded notification is addressed to this
   thread, names no other turn, and if thread-level comes after activity of this turn.
   */
  ghost predicate IsOwnEvent(events: seq<TurnEvent>, k: nat, threadId: string, turnId: Option<string>)
    requires k < |events|
  {
    match events[k]
    case TurnAssociated(id) => turnId == Some(id)
    case Notification(name, params) =>
      && MatchesThread(params, threadId)
      && (NotificationTurnId(params).None? || NotificationTurnId(params) == turnId)
      && (IsThreadLevel(name) ==> HasActivity(events, k, turnId))
  }

  ghost predicate EventsInv(core: Core, threadId: string)
  {
    && (forall k | 0 <= k < |core.events| :: IsOwnEvent(core.events, k, threadId, core.turnId))
    && (forall j, k | 0 <= j < k < |core.events| :: !(core.events[j].TurnAssociated? && core.events[k].TurnAssociated?))
    && (core.sawActivity ==> HasActivity(core.events, |core.events|, core.turnId))
  }

  lemma {:induction false} HasActivityExtends(
    events: seq<TurnEvent>, event: TurnEvent, count: nat, turnId: Option<string>)
    requires count <= |events| && HasActivity(events, count, turnId)
    ensures HasActivity(events + [event], count, turnId)
  {
    var j :| 0 <= j < count && IsActivityOf(events[j], turnId);
    assert (events + [event])[j] == events[j];
  }

  lemma {:induction false} OwnEventExtends(
    events: seq<TurnEvent>, event: TurnEvent, k: nat, threadId: string, turnId: Option<string>)
    requires k < |events| && IsOwnEvent(events, k, threadId, turnId)
    ensures IsOwnEvent(events + [event], k, threadId, turnId)
  {
    assert (events + [event])[k] == events[k];
    if events[k].Notification? && IsThreadLevel(events[k].name) {
      HasActivityExtends(events, event, k, turnId);
    }
  }

  /** Before a turn id is latched nothing can have been announced, nor any activity seen. */
  lemma {:induction false} UnlatchedIsQuiet(core: Core, threadId: string)
    requires EventsInv(core, threadId) && core.turnId.None?
    ensures !core.sawActivity && forall k | 0 <= k < |core.events| :: !core.events[k].TurnAssociated?
  {
    forall k | 0 <= k < |core.events|
      ensures !core.events[k].TurnAssociated?
    {
      assert IsOwnEvent(core.events, k, threadId, core.turnId);
    }
  }

  lemma {:induction false} LatchKeepsEvents(core: Core, threadId: string, params: Params)
    requires EventsInv(core, threadId)
    ensures EventsInv(Latch(core, threadId, params), threadId)
    ensures MatchesThread(params, threadId) && Latch(core, threadId, params).turnId.None? ==>
          NotificationTurnId(params).None?
  {
    var next := Latch(core, threadId, params);
    if next != core {
      UnlatchedIsQuiet(core, threadId);
      var event := TurnAssociated(NotificationTurnId(params).value);
      forall k | 0 <= k < |next.events|
        ensures IsOwnEvent(next.events, k, threadId, next.turnId)
      {
        if k < |core.events| {
          assert IsOwnEvent(core.events, k, threadId, core.turnId);
          assert next.events[k] == core.events[k];
          assert !HasActivity(core.events, k, core.turnId);
        }
      }
    }
  }

  lemma {:induction false} ActivityIsNotThreadLevel(name: string, params: Params)
    requires ConfirmsActivity(name, params)
    ensures !IsThreadLevel(name)
  {
  }

  lemma {:induction false} ForwardKeepsEvents(core: Core, threadId: string, name: string, params: Params)
    requires EventsInv(core, threadId)
    requires MatchesThread(params, threadId) && core.turnId.None? ==> NotificationTurnId(params).None?
    ensures EventsInv(Forward(core, threadId, name, params), threadId)
  {
    var next, event := Forward(core, threadId, name, params), Notification(name, params);
    if MatchesThread(params, threadId) && ShouldForward(core, name, params) {
      forall k | 0 <= k < |next.events|
        ensures IsOwnEvent(next.events, k, threadId, next.turnId)
      {
        if k < |core.events| {
          OwnEventExtends(core.events, event, k, threadId, core.turnId);
        } else if IsThreadLevel(name) {
          HasActivityExtends(core.events, event, |core.events|, core.turnId);
        }
      }
      if core.sawActivity {
        HasActivityExtends(core.events, event, |core.events|, core.turnId);
        var j :| 0 <= j < |core.events| && IsActivityOf(next.events[j], core.turnId);
      }
    }
  }

  lemma {:induction false} NotifiedKeepsEvents(core: Core, threadId: string, name: string, params: Params)
    requires EventsInv(core, threadId)
    ensures EventsInv(Notified(core, threadId, name, params), threadId)
  {
    var latched := Latch(core, threadId, params);
    LatchKeepsEvents(core, threadId, params);
    var forwarded := Forward(latched, threadId, name, params);
    ForwardKeepsEvents(latched, threadId, name, params);
    if Confirm(forwarded, threadId, name, params) != forwarded {
      ActivityIsNotThreadLevel(name, params);
      var last := |forwarded.events| - 1;
      assert forwarded.events[last] == Notification(name, params);
      assert IsActivityOf(forwarded.events[last], forwarded.turnId);
    }
  }

  lemma {:induction false} StepKeepsEvents(loop: Loop, threadId: string, input: Input)
    requires EventsInv(loop.core, threadId)
    ensures EventsInv(Step(loop, threadId, input).core, threadId)
  {
    hide ReplyTo, ConfirmsActivity, IsThreadLevel, StatusOf, NotificationTurnId, NotificationThreadId;
    if loop.ending.Running? && IsNotification(input) {
      NotifiedKeepsEvents(loop.core, threadId, input.line.name.value, input.line.params);
    }
  }

  /** The interrupts among the first writes; there is at most one, and it names the latched turn. */
  function Interrupts(sent: seq<Sent>): seq<Sent>
  {
    if sent == [] then []
    else
      Interrupts(sent[..|sent| - 1]) + (if sent[|sent| - 1].Interrupt? then [sent[|sent| - 1]] else [])
  }

  function Responses(sent: seq<Sent>): seq<Sent>
  {
    if sent == [] then []
    else
      Responses(sent[..|sent| - 1]) + (if sent[|sent| - 1].Response? then [sent[|sent| - 1]] else [])
  }

  lemma {:induction false} SendOne(sent: seq<Sent>, message: Sent)
    ensures Interrupts(sent + [message]) == Interrupts(sent) + (if message.Interrupt? then [message] else [])
    ensures Responses(sent + [message]) == Responses(sent) + (if message.Response? then [message] else [])
  {
    assert (sent + [message])[..|sent|] == sent;
  }

  /** What one step writes. */
  function Written(loop: Loop, threadId: string, input: Input): seq<Sent>
  {
    if !loop.ending.Running? then []
    else if input.LineArrives? && input.writeOk && input.line.Message? && input.line.name.Some?
        && input.line.id.Some? then
      [Response(input.line.id.value, ReplyTo(input.line.name.value))]
    else if input.AbortArrives? && input.writeOk && !loop.abortRequested && loop.core.turnId.Some? then
      [Interrupt(loop.interruptId, threadId, loop.core.turnId.value)]
    else []
  }

  lemma {:induction false} StepAppends(loop: Loop, threadId: string, input: Input)
    ensures Step(loop, threadId, input).core.sent == loop.core.sent + Written(loop, threadId, input)
  {
    hide ReplyTo, ConfirmsActivity, IsThreadLevel, StatusOf, NotificationTurnId, NotificationThreadId;
  }

  lemma {:induction false} StepWrites(loop: Loop, threadId: string, input: Input)
    ensures Interrupts(Step(loop, threadId, input).core.sent)
         == Interrupts(loop.core.sent) + (if input.AbortArrives? then Written(loop, threadId, input) else [])
    ensures Responses(Step(loop, threadId, input).core.sent)
         == Responses(loop.core.sent) + (if input.AbortArrives? then [] else Written(loop, threadId, input))
  {
    StepAppends(loop, threadId, input);
    var written := Written(loop, threadId, input);
    if written != [] {
      assert written == [written[0]] && (written[0].Interrupt? <==> input.AbortArrives?);
      SendOne(loop.core.sent, written[0]);
      hide Step, Written;
    } else {
      assert loop.core.sent + [] == loop.core.sent;
      hide Step, Written;
    }
  }

  ghost predicate InterruptInv(loop: Loop, threadId: string)
  {
    if loop.deadlineArmed then
      loop.abortRequested && loop.core.turnId.Some?
      && Interrupts(loop.core.sent) == [Interrupt(4, threadId, loop.core.turnId.value)]
    else
      Interrupts(loop.core.sent) == [] && (loop.abortRequested ==> !loop.ending.Running?) && loop.interruptId == 4
  }

  lemma {:induction false} StepKeepsInterrupts(loop: Loop, threadId: string, input: Input)
    requires InterruptInv(loop, threadId)
    ensures InterruptInv(Step(loop, threadId, input), threadId)
  {
    StepWrites(loop, threadId, input);
    if loop.core.turnId.Some? {
      LatchedStays(loop, threadId, input);
    }
    hide Interrupts;
  }

  /** A finished loop reports its own turn: its completion, the last thing forwarded, or an abort. */
  ghost predicate EndingInv(loop: Loop, threadId: string)
  {
    loop.ending.Finished? ==>
      var outcome, events := loop.ending.outcome, loop.core.events;
      && outcome.threadId == threadId && outcome.turnId == loop.core.turnId
      && (if outcome.turn.Some? then
            && events != [] && events[|events| - 1] == Notification("turn/completed", outcome.turn.value)
            && outcome.status == StatusOf(outcome.turn.value)
          else
            outcome.status == TurnInterrupted && loop.abortRequested)
  }

  lemma {:induction false} StepKeepsEnding(loop: Loop, threadId: string, input: Input)
    requires EndingInv(loop, threadId) && InterruptInv(loop, threadId)
    ensures EndingInv(Step(loop, threadId, input), threadId)
  {
    var next := Step(loop, threadId, input);
    if loop.ending.Running? && IsNotification(input) && next.ending.Finished? {
      assert !IsThreadLevel("turn/completed");
      assert next.core == Notified(loop.core, threadId, "turn/completed", input.line.params);
    }
  }

  ghost predicate LoopInv(loop: Loop, threadId: string)
  {
    EventsInv(loop.core, threadId) && InterruptInv(loop, threadId) && EndingInv(loop, threadId)
  }

  /** From the start of the loop and through any inputs, all of this holds. */
  lemma {:induction false} RunKeepsInv(loop: Loop, threadId: string, inputs: seq<Input>)
    requires LoopInv(loop, threadId)
    ensures LoopInv(Run(loop, threadId, inputs), threadId)
    ensures loop.core.turnId.Some? ==> Run(loop, threadId, inputs).core.turnId == loop.core.turnId
    decreases |inputs|
  {
    if inputs != [] {
      StepKeepsEvents(loop, threadId, inputs[0]);
      StepKeepsInterrupts(loop, threadId, inputs[0]);
      StepKeepsEnding(loop, threadId, inputs[0]);
      if loop.core.turnId.Some? {
        LatchedStays(loop, threadId, inputs[0]);
      }
      RunKeepsInv(Step(loop, threadId, inputs[0]), threadId, inputs[1..]);
    }
  }

  lemma {:induction false} EveryRunIsSound(turnId: Option<string>, threadId: string, inputs: seq<Input>)
    ensures LoopInv(Run(Started(turnId), threadId, inputs), threadId)
    ensures turnId.Some? ==> Run(Started(turnId), threadId, inputs).core.turnId == turnId
  {
    RunKeepsInv(Started(turnId), threadId, inputs);
  }

  // ----- The server's requests -----

  /** The answers owed to the requests among the inputs, in order. */
  function AnswersOwed(inputs: seq<Input>): seq<Sent>
  {
    if inputs == [] then [] else AnswerOwed(inputs[0]) + AnswersOwed(inputs[1..])
  }

  function AnswerOwed(input: Input): seq<Sent>
  {
    if input.LineArrives? && input.line.Message? && input.line.name.Some? && input.line.id.Some?
    then [Response(input.line.id.value, ReplyTo(input.line.name.value))]
    else []
  }

  /**
   Requests are answered once each and in order; while the loop still runs, all that
   have arrived are answered, and a loop that ended answered an initial part of them.
   */
  lemma {:induction false} RequestsAreAnsweredInOrder(
    loop: Loop, threadId: string, inputs: seq<Input>) returns (answered: nat)
    ensures answered <= |AnswersOwed(inputs)|
    ensures Responses(Run(loop, threadId, inputs).core.sent)
          == Responses(loop.core.sent) + AnswersOwed(inputs)[..answered]
    ensures Run(loop, threadId, inputs).ending.Running? ==> answered == |AnswersOwed(inputs)|
    decreases |inputs|
  {
    if inputs == [] {
      answered := 0;
    } else {
      var next := Step(loop, threadId, inputs[0]);
      var owed, rest := AnswerOwed(inputs[0]), AnswersOwed(inputs[1..]);
      if loop.ending.Running? && (next.ending.Running? || owed == []) {
        var later := RequestsAreAnsweredInOrder(next, threadId, inputs[1..]);
        WrittenIsOwed(loop, threadId, inputs[0]);
        StepWrites(loop, threadId, inputs[0]);
        answered := |owed| + later;
        TakeAppend(Responses(loop.core.sent), owed, rest, later);
        hide Step, Responses, Written, AnswerOwed;
      } else {
        EndedStays(next, threadId, inputs[1..]);
        StepWrites(loop, threadId, inputs[0]);
        answered := 0;
        hide Responses;
      }
    }
  }

  lemma {:induction false} TakeAppend(sent: seq<Sent>, owed: seq<Sent>, rest: seq<Sent>, later: nat)
    requires later <= |rest|
    ensures sent + owed + rest[..later] == sent + (owed + rest)[..|owed| + later]
  {
    assert (owed + rest)[..|owed| + later] == owed + rest[..later];
  }

  lemma {:induction false} WrittenIsOwed(loop: Loop, threadId: string, input: Input)
    requires loop.ending.Running?
    requires Step(loop, threadId, input).ending.Running? || AnswerOwed(input) == []
    ensures (if input.AbortArrives? then [] else Written(loop, threadId, input)) == AnswerOwed(input)
  {
  }

  lemma {:induction false} EndedStays(loop: Loop, threadId: string, inputs: seq<Input>)
    requires !loop.ending.Running?
    ensures Run(loop, threadId, inputs) == loop
    decreases |inputs|
  {
    if inputs != [] {
      EndedStays(loop, threadId, inputs[1..]);
    }
  }

  // ----- The loop object -----

  class LiveTurnLoop {
    const threadId: string
    var turnId: Option<string>
    var sawCurrentTurnNotification: bool
    var events: seq<TurnEvent>
    var sent: seq<Sent>

    ghost function State(): Core
      reads this
    {
      Core(turnId, sawCurrentTurnNotification, events, sent)
    }

    constructor (threadId: string, turnId: Option<string>)
      ensures this.threadId == threadId && State() == Started(turnId).core
    {
      this.threadId, this.turnId := threadId, turnId;
      sawCurrentTurnNotification, sent := false, [];
      events := if turnId.Some? then [TurnAssociated(turnId.value)] else [];
    }

    method HandleLiveJsonrpcLine(line: Line, writeOk: bool) returns (result: Result<Option<Outcome>, LoopError>)
      modifies this
      ensures (State(), result) == Handled(old(State()), threadId, line, writeOk)
    {
      if line.NotJson? {
        return Err(InvalidJson);
      }
      if line.name.None? {
        return Ok(None);
      }
      var name, params := line.name.value, line.params;
      if line.id.Some? {
        if !writeOk {
          return Err(WriteFailed);
        }
        sent := sent + [Response(line.id.value, ReplyTo(name))];
        return Ok(None);
      }
      var matchesThread := MatchesThread(params, threadId);
      var notificationTurnId := NotificationTurnId(params);
      if matchesThread && turnId.None? && notificationTurnId.Some? {
        turnId := notificationTurnId;
        events := events + [TurnAssociated(notificationTurnId.value)];
      }
      var matchesTurn := MatchesTurn(params, turnId);
      var shouldForward :=
        if IsThreadLevel(name) then sawCurrentTurnNotification && (matchesTurn || notificationTurnId.None?)
        else matchesTurn;
      if matchesThread && shouldForward {
        events := events + [Notification(name, params)];
      }
      if matchesThread && matchesTurn && notificationTurnId.Some? && ConfirmsActivity(name, params) {
        sawCurrentTurnNotification := true;
      }
      if name != "turn/completed" || !matchesThread || !matchesTurn {
        return Ok(None);
      }
      return Ok(Some(Outcome(threadId, turnId, StatusOf(params), Some(params))));
    }

    /** The select loop, for the order in which its branches become ready. */
    method RunLiveTurn(inputs: seq<Input>) returns (ending: Ending)
      requires State() == Started(turnId).core
      modifies this
      ensures var final := Run(Started(old(turnId)), threadId, inputs); State() == final.core && ending == final.ending
    {
      var interruptRequestId, abortRequested, deadlineArmed := 4, false, false;
      ending := Running;
      for i := 0 to |inputs|
        invariant Run(Loop(State(), abortRequested, deadlineArmed, interruptRequestId, ending), threadId, inputs[i..])
               == Run(Started(old(turnId)), threadId, inputs)
        invariant ending.Running?
      {
        assert inputs[i..][1..] == inputs[i + 1..];
        match inputs[i] {
          case LineArrives(line, writeOk) =>
            var result := HandleLiveJsonrpcLine(line, writeOk);
            match result {
              case Err(error) => ending := Broken(error);
              case Ok(None) =>
              case Ok(Some(outcome)) => ending := Finished(outcome);
            }
          case StreamCloses => ending := Broken(StreamClosed);
          case ReadFails => ending := Broken(ReadFailed);
          case AbortArrives(writeOk) =>
            if !abortRequested {
              abortRequested := true;
              if turnId.None? {
                ending := Finished(Outcome(threadId, None, TurnInterrupted, None));
              } else if !writeOk {
                ending := Broken(WriteFailed);
              } else {
                sent := sent + [Interrupt(interruptRequestId, threadId, turnId.value)];
                interruptRequestId := interruptRequestId + 1;
                deadlineArmed := true;
              }
            }
          case DeadlinePasses =>
            if deadlineArmed {
              ending := Finished(Outcome(threadId, turnId, TurnInterrupted, None));
            }
        }
        if !ending.Running? {
          EndedStays(Loop(State(), abortRequested, deadlineArmed, interruptRequestId, ending), threadId,
              inputs[i + 1..]);
          return;
        }
      }
    }
  }
}
