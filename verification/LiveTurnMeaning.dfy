/**
 What one wake-up of the live-turn loop does, told in the members of the messages: when
 the loop ends and how, what it forwards, and what it answers.
 */
module LiveTurnMeaning {
  import opened Wrappers
  import opened LiveTurn

  // ----- Whom a notification is for -----

  /** The thread is named by `threadId`, or by `thread_id` if there is no `threadId`. */
  predicate NamesThread(params: Params, id: string)
  {
    params.threadIdCamel == Text(id) || (params.threadIdCamel == Absent && params.threadIdSnake == Text(id))
  }

  predicate NamesSomeThread(params: Params)
  {
    params.threadIdCamel.Text? || (params.threadIdCamel == Absent && params.threadIdSnake.Text?)
  }

  /** Of the own thread is what names it, and what names none. */
  predicate IsForThread(params: Params, threadId: string)
  {
    NamesSomeThread(params) ==> NamesThread(params, threadId)
  }

  /** The turn is named by `turnId`, else by `turn_id`, else by the id of the turn object. */
  predicate NamesTurn(params: Params, id: string)
  {
    || params.turnIdCamel == Text(id)
    || (params.turnIdCamel == Absent && params.turnIdSnake == Text(id))
    || (params.turnIdCamel == Absent && params.turnIdSnake == Absent && params.turnObjectId == Text(id))
  }

  predicate NamesSomeTurn(params: Params)
  {
    || params.turnIdCamel.Text?
    || (params.turnIdCamel == Absent && params.turnIdSnake.Text?)
    || (params.turnIdCamel == Absent && params.turnIdSnake == Absent && params.turnObjectId.Text?)
  }

  lemma {:induction false} NamesAreRead(params: Params, id: string)
    ensures NotificationThreadId(params) == Some(id) <==> NamesThread(params, id)
    ensures NotificationThreadId(params).Some? <==> NamesSomeThread(params)
    ensures NotificationTurnId(params) == Some(id) <==> NamesTurn(params, id)
    ensures NotificationTurnId(params).Some? <==> NamesSomeTurn(params)
    ensures MatchesThread(params, id) <==> IsForThread(params, id)
  {
  }

  /** The turn the loop follows once the notification has arrived. */
  ghost predicate IsLatchedAfter(before: Option<string>, threadId: string, params: Params, after: Option<string>)
  {
    if before.Some? || !IsForThread(params, threadId) || !NamesSomeTurn(params) then after == before
    else after.Some? && NamesTurn(params, after.value)
  }

  // ----- How the loop ends -----

  /** A missing status counts as completed, and an unknown one as failed. */
  predicate IsReportedAs(params: Params, status: TerminalStatus)
  {
    match params.turnObjectStatus
    case Text(text) =>
      if text == "completed" then status == TurnCompleted
      else if text == "interrupted" then status == TurnInterrupted
      else status == TurnFailed
    case _ => status == TurnCompleted
  }

  /** The completion of the turn that the loop follows, or of any turn of the thread while it follows none. */
  predicate IsOwnCompletion(line: Line, threadId: string, turnId: Option<string>)
  {
    && line.Message? && line.name == Some("turn/completed") && line.id == None
    && IsForThread(line.params, threadId)
    && (turnId.Some? ==> NamesTurn(line.params, turnId.value))
  }

  /**
   From any running loop a line ends the turn exactly if it is the completion of the own
   turn, and then the outcome is that turn's, with its own status; it breaks the loop
   exactly if it is no JSON, or a request that cannot be answered.
   */
  lemma {:induction false} LineEndsExactly(loop: Loop, threadId: string, line: Line, writeOk: bool)
    requires loop.ending.Running?
    ensures var next := Step(loop, threadId, LineArrives(line, writeOk));
            match next.ending
            case Finished(outcome) =>
              && IsOwnCompletion(line, threadId, loop.core.turnId)
              && outcome.threadId == threadId && outcome.turn == Some(line.params)
              && IsLatchedAfter(loop.core.turnId, threadId, line.params, outcome.turnId)
              && IsReportedAs(line.params, outcome.status)
            case Broken(error) =>
              if error == InvalidJson then line == NotJson
              else error == WriteFailed && !writeOk && line.Message? && line.name.Some? && line.id.Some?
            case Running =>
              && !IsOwnCompletion(line, threadId, loop.core.turnId) && line != NotJson
              && (line.name.Some? && line.id.Some? ==> writeOk)
  {
    if line.Message? {
      NamesAreRead(line.params, threadId);
      if loop.core.turnId.Some? {
        NamesAreRead(line.params, loop.core.turnId.value);
      }
      if NotificationTurnId(line.params).Some? {
        NamesAreRead(line.params, NotificationTurnId(line.params).value);
      }
    }
    hide ReplyTo, ConfirmsActivity, IsThreadLevel, NotificationTurnId, NotificationThreadId;
    hide NamesThread, NamesSomeThread, NamesTurn, NamesSomeTurn, IsForThread, MatchesThread;
  }

  /** What the other wake-ups do: the stream ends, the user aborts, or the grace period after an abort is over. */
  lemma {:induction false} OthersEndExactly(loop: Loop, threadId: string, writeOk: bool)
    requires loop.ending.Running?
    ensures Step(loop, threadId, StreamCloses) == loop.(ending := Broken(StreamClosed))
    ensures Step(loop, threadId, ReadFails) == loop.(ending := Broken(ReadFailed))
    ensures var late := Step(loop, threadId, DeadlinePasses);
            if loop.deadlineArmed
            then late == loop.(ending := Finished(Outcome(threadId, loop.core.turnId, TurnInterrupted, None)))
            else late == loop
    ensures var aborted := Step(loop, threadId, AbortArrives(writeOk));
            if loop.abortRequested then aborted == loop
            else
              && aborted.abortRequested && aborted.core.events == loop.core.events
              && (match loop.core.turnId
                  case None =>
                    aborted.ending == Finished(Outcome(threadId, None, TurnInterrupted, None))
                    && aborted.core.sent == loop.core.sent
                  case Some(turnId) =>
                    if writeOk
                    then aborted.ending == Running && aborted.deadlineArmed
                         && aborted.core.sent == loop.core.sent + [Interrupt(loop.interruptId, threadId, turnId)]
                    else aborted.ending == Broken(WriteFailed) && aborted.core.sent == loop.core.sent)
  {
  }

  // ----- What the loop forwards -----

  const THREAD_LEVEL: set<string> := {
    "thread/tokenUsage/updated", "thread/status/changed", "thread/settings/updated"}

  const ACTIVITY: set<string> := {
    "item/agentMessage/delta", "item/reasoning/summaryTextDelta", "item/reasoning/textDelta",
    "item/commandExecution/outputDelta", "turn/plan/updated", "turn/diff/updated", "turn/completed",
    "error", "warning", "configWarning"}

  /** A completed item is activity if it is typed, and not as an echo or as bookkeeping. */
  predicate IsActivity(name: string, params: Params)
  {
    || name in ACTIVITY
    || (name == "item/completed" &&
        var ownType := if params.itemType.Some? then params.itemType.value else params.ownType;
        ownType.Text? && ownType.value !in {"", "userMessage", "contextCompaction", "enteredReviewMode"})
  }

  lemma {:induction false} NamesOfKinds(name: string, params: Params)
    ensures IsThreadLevel(name) <==> name in THREAD_LEVEL
    ensures ConfirmsActivity(name, params) <==> IsActivity(name, params)
  {
  }

  /** Of the turn that is followed now; everything is while none is. */
  predicate IsForTurn(params: Params, turnId: Option<string>)
  {
    turnId.Some? ==> NamesTurn(params, turnId.value)
  }

  /** Thread-level notices may also name no turn, but only pass once the turn has shown activity. */
  predicate IsForwarded(name: string, params: Params, threadId: string, turnId: Option<string>, sawActivity: bool)
  {
    && IsForThread(params, threadId)
    && (if name in THREAD_LEVEL then sawActivity && (IsForTurn(params, turnId) || !NamesSomeTurn(params))
        else IsForTurn(params, turnId))
  }

  /**
   A notification latches the turn it names if it is of the own thread and none is
   latched, which is announced; it is forwarded exactly if it is of the own thread and
   turn; and it is remembered as activity if it is that and names the turn.
   */
  lemma {:induction false} NotificationDoesExactly(
    loop: Loop, threadId: string, name: string, params: Params, writeOk: bool)
    requires loop.ending.Running?
    ensures var before, after :=
              loop.core, Step(loop, threadId, LineArrives(Message(Some(name), None, params), writeOk)).core;
            && IsLatchedAfter(before.turnId, threadId, params, after.turnId)
            && after.sent == before.sent
            && after.events == before.events
                 + (if after.turnId != before.turnId then [TurnAssociated(after.turnId.value)] else [])
                 + (if IsForwarded(name, params, threadId, after.turnId, before.sawActivity)
                    then [Notification(name, params)] else [])
            && (after.sawActivity <==>
                  || before.sawActivity
                  || (IsForThread(params, threadId) && NamesSomeTurn(params) && IsForTurn(params, after.turnId)
                      && IsActivity(name, params)))
  {
    NotifiedDoesExactly(loop.core, threadId, name, params);
    hide Notified, IsLatchedAfter, IsForwarded, IsForThread, NamesSomeTurn, IsForTurn, IsActivity, StatusOf;
  }

  lemma {:induction false} NotifiedDoesExactly(before: Core, threadId: string, name: string, params: Params)
    ensures var after := Notified(before, threadId, name, params);
            && IsLatchedAfter(before.turnId, threadId, params, after.turnId)
            && after.sent == before.sent
            && after.events == before.events
                 + (if after.turnId != before.turnId then [TurnAssociated(after.turnId.value)] else [])
                 + (if IsForwarded(name, params, threadId, after.turnId, before.sawActivity)
                    then [Notification(name, params)] else [])
            && (after.sawActivity <==>
                  || before.sawActivity
                  || (IsForThread(params, threadId) && NamesSomeTurn(params) && IsForTurn(params, after.turnId)
                      && IsActivity(name, params)))
  {
    NamesAreRead(params, threadId);
    NamesOfKinds(name, params);
    var latched := Latch(before, threadId, params);
    if latched.turnId.Some? {
      NamesAreRead(params, latched.turnId.value);
    }
    if before.turnId.Some? {
      NamesAreRead(params, before.turnId.value);
    }
    hide ConfirmsActivity, IsThreadLevel, NotificationTurnId, NotificationThreadId;
    hide NamesThread, NamesSomeThread, NamesTurn, NamesSomeTurn, IsForThread, MatchesThread, IsActivity;
    assert before.events + [] == before.events;
  }

  // ----- What the loop answers -----

  /** The loop can approve nothing, ask nobody and run no tool, and says so in each request's own terms. */
  predicate IsAnswerTo(name: string, reply: Reply)
  {
    if name in {"item/commandExecution/requestApproval", "item/fileChange/requestApproval"} then reply == Decline
    else if name in {"execCommandApproval", "applyPatchApproval"} then reply == Denied
    else if name in {"account/chatgptAuthTokens/refresh", "attestation/generate"} then reply == ErrorReply(-32000)
    else
      match reply
      case NoPermissions => name == "item/permissions/requestApproval"
      case NoAnswers => name == "item/tool/requestUserInput"
      case DeclineElicitation => name == "mcpServer/elicitation/request"
      case ToolFailure => name == "item/tool/call"
      case ErrorReply(code) =>
        code == -32601 && name !in {
          "item/permissions/requestApproval", "item/tool/requestUserInput", "mcpServer/elicitation/request",
          "item/tool/call"}
      case _ => false
  }

  /** A request is answered once, under its own id, and changes nothing else; a response changes nothing. */
  lemma {:induction false} RequestDoesExactly(
    loop: Loop, threadId: string, name: Option<string>, id: nat, params: Params)
    requires loop.ending.Running?
    ensures var next := Step(loop, threadId, LineArrives(Message(name, Some(id), params), true));
            if name.None? then next == loop
            else exists reply :: IsAnswerTo(name.value, reply)
                   && next == loop.(core := loop.core.(sent := loop.core.sent + [Response(id, reply)]))
  {
    if name.Some? {
      AnswerMeans(name.value);
    }
    hide ReplyTo, IsAnswerTo, Notified, StatusOf;
  }

  lemma {:induction false} AnswerMeans(name: string)
    ensures IsAnswerTo(name, ReplyTo(name))
  {
  }
}
