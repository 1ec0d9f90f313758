/** The conversation history sent to a direct model API, and the recovery prompt added to it. */
module DirectAiHistory {
  import opened Text

  const DIRECT_AI_HISTORY_MAX_MESSAGES: nat := 48
  const DIRECT_AI_HISTORY_MAX_BYTES: nat := 96 * 1024

  datatype MessageRole = System | User | Assistant | Tool

  datatype ChatMessage = ChatMessage(role: MessageRole, content: string)

  datatype Speaker = UserRole | AssistantRole

  datatype Turn = Turn(role: Speaker, content: string)

  // ----- Selection -----

  /** The turn a stored message stands for: none for other roles and for blank content. */
  function TurnOf(message: ChatMessage): seq<Turn>
  {
    var content := Trim(message.content);
    if content == "" then []
    else
      match message.role
      case User => [Turn(UserRole, content)]
      case Assistant => [Turn(AssistantRole, content)]
      case System => []
      case Tool => []
  }

  function Eligible(messages: seq<ChatMessage>): seq<Turn>
  {
    if messages == [] then []
    else Eligible(messages[..|messages| - 1]) + TurnOf(messages[|messages| - 1])
  }

  function TotalBytes(turns: seq<Turn>): nat
  {
    if turns == [] then 0 else ByteLen(turns[0].content) + TotalBytes(turns[1..])
  }

  /** How many turns are taken from the end, when `taken` of them already weigh `bytes`. */
  function Taken(turns: seq<Turn>, taken: nat, bytes: nat): (count: nat)
    requires taken <= |turns|
    ensures taken <= count <= |turns|
    decreases |turns| - taken
  {
    if taken == |turns| || taken >= DIRECT_AI_HISTORY_MAX_MESSAGES then taken
    else
      var next := bytes + ByteLen(turns[|turns| - 1 - taken].content);
      if taken > 0 && next > DIRECT_AI_HISTORY_MAX_BYTES then taken else Taken(turns, taken + 1, next)
  }

  function TakenOf(turns: seq<Turn>): (count: nat)
    ensures count <= |turns|
  {
    Taken(turns, 0, 0)
  }

  function Selected(turns: seq<Turn>): seq<Turn>
  {
    turns[|turns| - TakenOf(turns)..]
  }

  function DropLeadingAssistant(turns: seq<Turn>): seq<Turn>
  {
    if turns != [] && turns[0].role == AssistantRole then DropLeadingAssistant(turns[1..]) else turns
  }

  function Latest(turns: seq<Turn>, count: nat): seq<Turn>
    requires count <= |turns|
  {
    turns[|turns| - count..]
  }

  lemma {:induction false} LatestGrows(turns: seq<Turn>, count: nat)
    requires count < |turns|
    ensures TotalBytes(Latest(turns, count + 1))
         == ByteLen(turns[|turns| - 1 - count].content) + TotalBytes(Latest(turns, count))
  {
    assert Latest(turns, count + 1)[1..] == Latest(turns, count);
  }

  /** The number taken is within both limits, and one more would break one of them. */
  lemma {:induction false} TakenIsLargest(turns: seq<Turn>, taken: nat, bytes: nat)
    requires taken <= |turns| && taken <= DIRECT_AI_HISTORY_MAX_MESSAGES
    requires bytes == TotalBytes(Latest(turns, taken))
    requires bytes <= DIRECT_AI_HISTORY_MAX_BYTES || taken <= 1
    ensures var count := Taken(turns, taken, bytes);
            && count <= DIRECT_AI_HISTORY_MAX_MESSAGES
            && (TotalBytes(Latest(turns, count)) <= DIRECT_AI_HISTORY_MAX_BYTES || count <= 1)
            && (count < |turns| && count < DIRECT_AI_HISTORY_MAX_MESSAGES ==>
                  count > 0 && TotalBytes(Latest(turns, count + 1)) > DIRECT_AI_HISTORY_MAX_BYTES)
    decreases |turns| - taken
  {
    hide TotalBytes, Latest, ByteLen;
    if taken == |turns| || taken == DIRECT_AI_HISTORY_MAX_MESSAGES {
      assert Taken(turns, taken, bytes) == taken;
    } else {
      LatestGrows(turns, taken);
      var next := bytes + ByteLen(turns[|turns| - 1 - taken].content);
      if taken > 0 && next > DIRECT_AI_HISTORY_MAX_BYTES {
        assert Taken(turns, taken, bytes) == taken;
      } else {
        assert Taken(turns, taken, bytes) == Taken(turns, taken + 1, next);
        TakenIsLargest(turns, taken + 1, next);
      }
    }
  }

  // ----- Merging neighbours -----

  function Separator(): string
  {
    "\n\n"
  }

  /** The loop body: a turn joins the last one if both have the same role. */
  function PushTurn(turns: seq<Turn>, turn: Turn): seq<Turn>
  {
    var last := |turns| - 1;
    if turns != [] && turns[last].role == turn.role
    then turns[last := Turn(turn.role, turns[last].content + Separator() + turn.content)]
    else turns + [turn]
  }

  function Coalesced(turns: seq<Turn>): seq<Turn>
  {
    if turns == [] then [] else PushTurn(Coalesced(turns[..|turns| - 1]), turns[|turns| - 1])
  }

  function Joined(run: seq<Turn>): string
    requires run != []
  {
    if |run| == 1 then run[0].content
    else Joined(run[..|run| - 1]) + Separator() + run[|run| - 1].content
  }

  function Flat(runs: seq<seq<Turn>>): seq<Turn>
  {
    if runs == [] then [] else Flat(runs[..|runs| - 1]) + runs[|runs| - 1]
  }

  ghost predicate Alternates(turns: seq<Turn>)
  {
    forall k | 0 < k < |turns| :: turns[k].role != turns[k - 1].role
  }

  /** Each turn of the result is the text of one run of neighbours with one role. */
  ghost predicate AreRunsOf(runs: seq<seq<Turn>>, result: seq<Turn>)
  {
    && |runs| == |result|
    && forall k | 0 <= k < |runs| ::
         && runs[k] != [] && result[k] == Turn(runs[k][0].role, Joined(runs[k]))
         && forall j | 0 <= j < |runs[k]| :: runs[k][j].role == runs[k][0].role
  }

  lemma {:induction false} FlatPush(runs: seq<seq<Turn>>, run: seq<Turn>)
    ensures Flat(runs + [run]) == Flat(runs) + run
  {
    assert (runs + [run])[..|runs|] == runs;
  }

  lemma {:induction false} JoinLastRun(
    runs: seq<seq<Turn>>, merged: seq<Turn>, turn: Turn) returns (joined: seq<seq<Turn>>)
    requires AreRunsOf(runs, merged) && merged != [] && merged[|merged| - 1].role == turn.role
    ensures AreRunsOf(joined, PushTurn(merged, turn)) && Flat(joined) == Flat(runs) + [turn]
  {
    var last := |runs| - 1;
    var run := runs[last] + [turn];
    assert run[..|run| - 1] == runs[last];
    joined := runs[..last] + [run];
    FlatPush(runs[..last], run);
    assert runs == runs[..last] + [runs[last]];
    FlatPush(runs[..last], runs[last]);
    assert Flat(runs[..last]) + (runs[last] + [turn]) == (Flat(runs[..last]) + runs[last]) + [turn];
  }

  lemma {:induction false} StartRun(runs: seq<seq<Turn>>, merged: seq<Turn>, turn: Turn)
    requires AreRunsOf(runs, merged) && (merged == [] || merged[|merged| - 1].role != turn.role)
    ensures AreRunsOf(runs + [[turn]], PushTurn(merged, turn)) && Flat(runs + [[turn]]) == Flat(runs) + [turn]
  {
    FlatPush(runs, [turn]);
    hide Flat;
    assert Joined([turn]) == turn.content;
  }

  lemma {:induction false} PushKeepsAlternation(turns: seq<Turn>, turn: Turn)
    requires Alternates(turns)
    ensures Alternates(PushTurn(turns, turn))
    ensures PushTurn(turns, turn) != []
    ensures PushTurn(turns, turn)[0].role == (if turns == [] then turn.role else turns[0].role)
  {
  }

  lemma {:induction false} PushRun(runs: seq<seq<Turn>>, merged: seq<Turn>, turn: Turn) returns (pushed: seq<seq<Turn>>)
    requires AreRunsOf(runs, merged)
    ensures AreRunsOf(pushed, PushTurn(merged, turn)) && Flat(pushed) == Flat(runs) + [turn]
  {
    if merged != [] && merged[|merged| - 1].role == turn.role {
      pushed := JoinLastRun(runs, merged, turn);
    } else {
      pushed := runs + [[turn]];
      StartRun(runs, merged, turn);
    }
  }

  lemma {:induction false} CoalescedAlternates(turns: seq<Turn>)
    ensures Alternates(Coalesced(turns))
    ensures turns != [] ==> Coalesced(turns) != [] && Coalesced(turns)[0].role == turns[0].role
  {
    if turns != [] {
      CoalescedAlternates(turns[..|turns| - 1]);
      PushKeepsAlternation(Coalesced(turns[..|turns| - 1]), turns[|turns| - 1]);
      hide Alternates, PushTurn;
    }
  }

  /** Merging loses and reorders nothing: the runs, laid end to end, are the turns. */
  lemma {:induction false} CoalescedIsRuns(turns: seq<Turn>) returns (runs: seq<seq<Turn>>)
    ensures Flat(runs) == turns && AreRunsOf(runs, Coalesced(turns))
  {
    if turns == [] {
      runs := [];
    } else {
      var before, turn := turns[..|turns| - 1], turns[|turns| - 1];
      hide AreRunsOf, Flat, PushTurn;
      var earlier := CoalescedIsRuns(before);
      runs := PushRun(earlier, Coalesced(before), turn);
      assert before + [turn] == turns;
    }
  }

  // ----- The history -----

  function Fallback(turns: seq<Turn>, fallbackPrompt: string): seq<Turn>
  {
    if turns == [] && Trim(fallbackPrompt) != "" then [Turn(UserRole, Trim(fallbackPrompt))] else turns
  }

  function History(messages: seq<ChatMessage>, fallbackPrompt: string): seq<Turn>
  {
    Fallback(Coalesced(DropLeadingAssistant(Selected(Eligible(messages)))), fallbackPrompt)
  }

  lemma {:induction false} DropLeadsWithUser(turns: seq<Turn>) returns (dropped: nat)
    ensures dropped <= |turns| && DropLeadingAssistant(turns) == turns[dropped..]
    ensures forall k | 0 <= k < dropped :: turns[k].role == AssistantRole
    ensures DropLeadingAssistant(turns) != [] ==> DropLeadingAssistant(turns)[0].role == UserRole
  {
    if turns != [] && turns[0].role == AssistantRole {
      dropped := DropLeadsWithUser(turns[1..]);
      dropped := dropped + 1;
    } else {
      dropped := 0;
    }
  }

  /**
   A history is empty or starts with the user and alternates. Unless it is the fallback,
   it is made of the latest eligible turns from `start` on, in order and complete: at
   most 48 of them, and at most 96 KiB unless a single one was taken. Before `start`
   there is either a turn over one of these limits or an answer with no question.
   */
  lemma {:induction false} HistoryIsWellFormed(messages: seq<ChatMessage>, fallbackPrompt: string)
    returns (start: nat, runs: seq<seq<Turn>>)
    ensures var history := History(messages, fallbackPrompt);
            Alternates(history) && (history != [] ==> history[0].role == UserRole)
    ensures var eligible, history := Eligible(messages), History(messages, fallbackPrompt);
            && start <= |eligible| && Flat(runs) == eligible[start..]
            && |eligible[start..]| <= DIRECT_AI_HISTORY_MAX_MESSAGES
            && (TotalBytes(eligible[start..]) <= DIRECT_AI_HISTORY_MAX_BYTES || |eligible[start..]| == 1)
            && (eligible[start..] != [] ==> AreRunsOf(runs, history))
            && (eligible[start..] == [] ==>
                  history == if Trim(fallbackPrompt) == "" then [] else [Turn(UserRole, Trim(fallbackPrompt))])
    ensures var eligible := Eligible(messages);
            start > 0 ==>
              || eligible[start - 1].role == AssistantRole
              || |eligible[start - 1..]| > DIRECT_AI_HISTORY_MAX_MESSAGES
              || TotalBytes(eligible[start - 1..]) > DIRECT_AI_HISTORY_MAX_BYTES
  {
    var eligible := Eligible(messages);
    start := SelectionStart(eligible);
    runs := CoalescedIsRuns(eligible[start..]);
    CoalescedAlternates(eligible[start..]);
    hide Coalesced, Eligible, Selected, DropLeadingAssistant, AreRunsOf, Flat, TotalBytes, Trim;
    if eligible[start..] == [] {
      assert Coalesced([]) == [];
    }
  }

  /** Where the kept turns start, and why not earlier. */
  lemma {:induction false} SelectionStart(eligible: seq<Turn>) returns (start: nat)
    ensures start <= |eligible| && DropLeadingAssistant(Selected(eligible)) == eligible[start..]
    ensures eligible[start..] != [] ==> eligible[start].role == UserRole
    ensures |eligible[start..]| <= DIRECT_AI_HISTORY_MAX_MESSAGES
    ensures TotalBytes(eligible[start..]) <= DIRECT_AI_HISTORY_MAX_BYTES || |eligible[start..]| == 1
    ensures start > 0 ==>
              || eligible[start - 1].role == AssistantRole
              || |eligible[start - 1..]| > DIRECT_AI_HISTORY_MAX_MESSAGES
              || TotalBytes(eligible[start - 1..]) > DIRECT_AI_HISTORY_MAX_BYTES
  {
    var count := Taken(eligible, 0, 0);
    assert Latest(eligible, 0) == [];
    TakenIsLargest(eligible, 0, 0);
    var selected := Selected(eligible);
    assert selected == Latest(eligible, count);
    var dropped := DropLeadsWithUser(selected);
    hide Taken;
    start := |eligible| - count + dropped;
    assert selected[dropped..] == eligible[start..];
    SuffixIsLighter(selected, dropped);
    if dropped > 0 {
      assert eligible[start - 1] == selected[dropped - 1];
    }
  }

  lemma {:induction false} SuffixIsLighter(turns: seq<Turn>, from: nat)
    requires from <= |turns|
    ensures TotalBytes(turns[from..]) <= TotalBytes(turns)
  {
    if from > 0 {
      SuffixIsLighter(turns[1..], from - 1);
      assert turns[1..][from - 1..] == turns[from..];
    } else {
      assert turns[0..] == turns;
    }
  }

  // ----- The recovery prompt -----

  function WithRecoveryPrompt(turns: seq<Turn>, recoveryPrompt: string): seq<Turn>
  {
    PushTurn(turns, Turn(UserRole, recoveryPrompt))
  }

  /**
   The prompt comes last, from the user: as a new paragraph of the user's last turn if
   that ends the history, and as a turn of its own otherwise. All else stays, and a
   history that alternated still does.
   */
  lemma {:induction false} RecoveryPromptEndsWithUser(turns: seq<Turn>, recoveryPrompt: string)
    ensures var result := WithRecoveryPrompt(turns, recoveryPrompt);
            && result != [] && result[|result| - 1].role == UserRole
            && (Alternates(turns) ==> Alternates(result))
            && (turns != [] ==> result[0].role == turns[0].role)
            && if turns == [] || turns[|turns| - 1].role == AssistantRole
               then result == turns + [Turn(UserRole, recoveryPrompt)]
               else |result| == |turns| && result[..|turns| - 1] == turns[..|turns| - 1]
                    && result[|turns| - 1].content == turns[|turns| - 1].content + "\n\n" + recoveryPrompt
    ensures Alternates(turns) && (turns != [] ==> turns[0].role == UserRole) ==>
              |WithRecoveryPrompt(turns, recoveryPrompt)| % 2 == 1
  {
    var result := WithRecoveryPrompt(turns, recoveryPrompt);
    if Alternates(turns) && (turns != [] ==> turns[0].role == UserRole) {
      AlternationParity(result);
    }
  }

  lemma {:induction false} AlternationParity(turns: seq<Turn>)
    requires turns != [] && Alternates(turns) && turns[0].role == UserRole
    ensures turns[|turns| - 1].role == UserRole <==> |turns| % 2 == 1
  {
    if |turns| > 1 {
      AlternationParity(turns[..|turns| - 1]);
    }
  }

  // ----- The loops -----

  function Reversed(turns: seq<Turn>): seq<Turn>
  {
    if turns == [] then [] else [turns[|turns| - 1]] + Reversed(turns[..|turns| - 1])
  }

  lemma {:induction false} ReversedPush(turns: seq<Turn>, turn: Turn)
    ensures Reversed(turns + [turn]) == [turn] + Reversed(turns)
  {
    assert (turns + [turn])[..|turns|] == turns;
  }

  lemma {:induction false} TakenSteps(turns: seq<Turn>, taken: nat, bytes: nat)
    requires taken < |turns|
    ensures var next := bytes + ByteLen(turns[|turns| - 1 - taken].content);
            Taken(turns, taken, bytes) ==
            if taken >= DIRECT_AI_HISTORY_MAX_MESSAGES || (taken > 0 && next > DIRECT_AI_HISTORY_MAX_BYTES) then taken
            else Taken(turns, taken + 1, next)
  {
  }

  /** How the selection stands: the messages still to visit hold the turns not yet looked at. */
  ghost predicate IsSelecting(messages: seq<ChatMessage>, i: nat, selected: seq<Turn>, bytes: nat)
  {
    var eligible := Eligible(messages);
    && i <= |messages| && |selected| <= |eligible|
    && Eligible(messages[..i]) == eligible[..|eligible| - |selected|]
    && Reversed(selected) == Latest(eligible, |selected|)
    && TakenOf(eligible) == Taken(eligible, |selected|, bytes)
  }

  lemma {:induction false} SelectionStarts(messages: seq<ChatMessage>)
    ensures IsSelecting(messages, |messages|, [], 0)
  {
    assert messages[..|messages|] == messages;
  }

  lemma {:induction false} SelectionSkips(messages: seq<ChatMessage>, i: nat, selected: seq<Turn>, bytes: nat)
    requires i > 0 && IsSelecting(messages, i, selected, bytes) && TurnOf(messages[i - 1]) == []
    ensures IsSelecting(messages, i - 1, selected, bytes)
  {
    assert messages[..i][..i - 1] == messages[..i - 1];
    assert Eligible(messages[..i - 1]) + [] == Eligible(messages[..i - 1]);
  }

  lemma {:induction false} NextTurn(messages: seq<ChatMessage>, i: nat, selected: seq<Turn>, bytes: nat)
    requires i > 0 && IsSelecting(messages, i, selected, bytes) && TurnOf(messages[i - 1]) != []
    ensures |selected| < |Eligible(messages)|
    ensures TurnOf(messages[i - 1]) == [Eligible(messages)[|Eligible(messages)| - 1 - |selected|]]
    ensures Eligible(messages[..i - 1]) == Eligible(messages)[..|Eligible(messages)| - |selected| - 1]
  {
    hide TurnOf, Reversed, Taken, TakenOf, Latest, Eligible;
    EligiblePush(messages, i);
    TakeLast(Eligible(messages), |selected|, Eligible(messages[..i - 1]), TurnOf(messages[i - 1]));
  }

  lemma {:induction false} EligiblePush(messages: seq<ChatMessage>, i: nat)
    requires 0 < i <= |messages|
    ensures Eligible(messages[..i]) == Eligible(messages[..i - 1]) + TurnOf(messages[i - 1])
    ensures |TurnOf(messages[i - 1])| <= 1
  {
    assert messages[..i][..i - 1] == messages[..i - 1];
  }

  lemma {:induction false} TakeLast(turns: seq<Turn>, count: nat, before: seq<Turn>, turn: seq<Turn>)
    requires count <= |turns| && |turn| == 1 && turns[..|turns| - count] == before + turn
    ensures count < |turns| && turn == [turns[|turns| - 1 - count]] && before == turns[..|turns| - count - 1]
  {
    var head := turns[..|turns| - count];
    assert |head| == |before| + 1;
    assert head[|before|] == turn[0];
    assert forall k | 0 <= k < |before| :: before[k] == head[k] == turns[k];
  }

  lemma {:induction false} SelectionTakes(
    messages: seq<ChatMessage>, i: nat, selected: seq<Turn>, bytes: nat, turn: Turn)
    requires i > 0 && IsSelecting(messages, i, selected, bytes) && TurnOf(messages[i - 1]) == [turn]
    requires |selected| < DIRECT_AI_HISTORY_MAX_MESSAGES
    requires |selected| == 0 || bytes + ByteLen(turn.content) <= DIRECT_AI_HISTORY_MAX_BYTES
    ensures IsSelecting(messages, i - 1, selected + [turn], bytes + ByteLen(turn.content))
  {
    hide Eligible, Taken, TakenOf, Latest, Reversed, TurnOf, ByteLen;
    NextTurn(messages, i, selected, bytes);
    var eligible := Eligible(messages);
    TakenSteps(eligible, |selected|, bytes);
    ReversedTake(eligible, selected, turn);
    assert |selected + [turn]| == |selected| + 1;
  }

  lemma {:induction false} ReversedTake(eligible: seq<Turn>, selected: seq<Turn>, turn: Turn)
    requires |selected| < |eligible| && Reversed(selected) == Latest(eligible, |selected|)
    requires turn == eligible[|eligible| - 1 - |selected|]
    ensures Reversed(selected + [turn]) == Latest(eligible, |selected| + 1)
  {
    ReversedPush(selected, turn);
    LatestPush(eligible, |selected|);
    hide Reversed, Latest;
  }

  lemma {:induction false} LatestPush(turns: seq<Turn>, count: nat)
    requires count < |turns|
    ensures Latest(turns, count + 1) == [turns[|turns| - 1 - count]] + Latest(turns, count)
  {
  }

  lemma {:induction false} SelectionStops(messages: seq<ChatMessage>, i: nat, selected: seq<Turn>, bytes: nat)
    requires IsSelecting(messages, i, selected, bytes)
    requires
      i > 0 ==>
        var turn := TurnOf(messages[i - 1]);
        turn != [] && (|selected| >= DIRECT_AI_HISTORY_MAX_MESSAGES
                       || (|selected| > 0 && bytes + ByteLen(turn[0].content) > DIRECT_AI_HISTORY_MAX_BYTES))
    ensures Reversed(selected) == Selected(Eligible(messages))
  {
    hide Reversed, Trim, ByteLen;
    var eligible := Eligible(messages);
    if i > 0 {
      NextTurn(messages, i, selected, bytes);
      TakenSteps(eligible, |selected|, bytes);
      hide Taken, Eligible;
    } else {
      assert messages[..0] == [];
      assert |selected| == |eligible|;
    }
  }

  /** The backward selection loop, with its reversal. */
  method SelectRecent(messages: seq<ChatMessage>) returns (selected: seq<Turn>)
    ensures selected == Selected(Eligible(messages))
  {
    hide IsSelecting, Eligible, Selected, Taken, TakenOf, TurnOf, Reversed;
    selected := [];
    var selectedBytes: nat := 0;
    var i: nat := |messages|;
    SelectionStarts(messages);
    while i > 0
      invariant i <= |messages| && IsSelecting(messages, i, selected, selectedBytes)
    {
      var turn := TurnOf(messages[i - 1]);
      if turn == [] {
        SelectionSkips(messages, i, selected, selectedBytes);
      } else {
        if |selected| >= DIRECT_AI_HISTORY_MAX_MESSAGES {
          break;
        }
        var nextBytes := selectedBytes + ByteLen(turn[0].content);
        if |selected| > 0 && nextBytes > DIRECT_AI_HISTORY_MAX_BYTES {
          break;
        }
        NextTurn(messages, i, selected, selectedBytes);
        SelectionTakes(messages, i, selected, selectedBytes, turn[0]);
        selectedBytes := nextBytes;
        selected := selected + [turn[0]];
      }
      i := i - 1;
    }
    SelectionStops(messages, i, selected, selectedBytes);
    selected := Reversed(selected);
  }

  method DirectAiConversationMessages(
    messages: seq<ChatMessage>, fallbackPrompt: string) returns (normalized: seq<Turn>)
    ensures normalized == History(messages, fallbackPrompt)
  {
    hide Selected, Eligible, Coalesced, Trim;
    var selected := SelectRecent(messages);
    ghost var all := selected;
    while |selected| > 0 && selected[0].role == AssistantRole
      invariant DropLeadingAssistant(selected) == DropLeadingAssistant(all)
    {
      selected := selected[1..];
    }
    normalized := Coalesce(selected);
    if normalized == [] {
      var prompt := Trim(fallbackPrompt);
      if prompt != "" {
        normalized := [Turn(UserRole, prompt)];
      }
    }
  }

  /** The loop that joins neighbouring turns of one role. */
  method Coalesce(selected: seq<Turn>) returns (normalized: seq<Turn>)
    ensures normalized == Coalesced(selected)
  {
    normalized := [];
    for i := 0 to |selected|
      invariant normalized == Coalesced(selected[..i])
    {
      var turn := selected[i];
      assert selected[..i + 1][..i] == selected[..i];
      var last := |normalized| - 1;
      if |normalized| > 0 && normalized[last].role == turn.role {
        normalized := normalized[last := Turn(turn.role, normalized[last].content + Separator() + turn.content)];
      } else {
        normalized := normalized + [turn];
      }
    }
    assert selected[..|selected|] == selected;
  }
}
