/** Which messages a history is made of, who speaks each turn of it, and what the turn says. */
module HistoryMeaning {
  import opened Text
  import opened DirectAiHistory

  // ----- Messages that are said -----

  /** A message of the user or of the assistant that is not blank. */
  predicate IsSaid(message: ChatMessage)
  {
    message.role in {User, Assistant} && Trim(message.content) != ""
  }

  /** The turn says what the message says, and the same side speaks. */
  predicate Speaks(turn: Turn, message: ChatMessage)
  {
    && turn.content == Trim(message.content)
    && (message.role == User ==> turn.role == UserRole)
    && (message.role == Assistant ==> turn.role == AssistantRole)
  }

  /** The positions of the messages that are said, in order, and the turns they stand for. */
  ghost predicate AreSaid(positions: seq<nat>, turns: seq<Turn>, messages: seq<ChatMessage>)
  {
    && |positions| == |turns|
    && (forall k | 0 <= k < |positions| :: positions[k] < |messages| && Speaks(turns[k], messages[positions[k]]))
    && (forall j, k | 0 <= j < k < |positions| :: positions[j] < positions[k])
    && (forall i | 0 <= i < |messages| :: i in positions <==> IsSaid(messages[i]))
  }

  lemma {:induction false} EligibleAreSaid(messages: seq<ChatMessage>) returns (positions: seq<nat>)
    ensures AreSaid(positions, Eligible(messages), messages)
  {
    if messages == [] {
      positions := [];
    } else {
      var n := |messages| - 1;
      positions := EligibleAreSaid(messages[..n]);
      var turns := Eligible(messages[..n]);
      assert Eligible(messages) == turns + TurnOf(messages[n]);
      hide Eligible, Trim;
      if IsSaid(messages[n]) {
        OneMoreIsSaid(positions, turns, messages);
        positions := positions + [n];
      } else {
        assert turns + [] == turns;
        SilenceAddsNothing(positions, turns, messages);
      }
    }
  }

  lemma {:induction false} SilenceAddsNothing(positions: seq<nat>, turns: seq<Turn>, messages: seq<ChatMessage>)
    requires messages != [] && AreSaid(positions, turns, messages[..|messages| - 1])
    requires !IsSaid(messages[|messages| - 1])
    ensures AreSaid(positions, turns, messages)
  {
    hide Speaks, IsSaid;
    var n := |messages| - 1;
    forall i | 0 <= i < |messages|
      ensures i in positions <==> IsSaid(messages[i])
    {
      assert i < n ==> messages[..n][i] == messages[i];
    }
  }

  lemma {:induction false} OneMoreIsSaid(positions: seq<nat>, turns: seq<Turn>, messages: seq<ChatMessage>)
    requires messages != [] && AreSaid(positions, turns, messages[..|messages| - 1])
    requires IsSaid(messages[|messages| - 1])
    ensures AreSaid(positions + [|messages| - 1], turns + TurnOf(messages[|messages| - 1]), messages)
  {
    var n := |messages| - 1;
    var turn := TurnOf(messages[n]);
    assert |turn| == 1 && Speaks(turn[0], messages[n]);
    hide Speaks, IsSaid, TurnOf;
    forall i | 0 <= i < |messages|
      ensures i in positions + [n] <==> IsSaid(messages[i])
    {
      assert i < n ==> messages[..n][i] == messages[i];
    }
    assert forall k | 0 <= k < |positions| :: messages[..n][positions[k]] == messages[positions[k]];
  }

  // ----- Weights and joins, told in the text -----

  /** What the turns say, laid end to end. */
  function AllSaid(turns: seq<Turn>): string
  {
    if turns == [] then "" else turns[0].content + AllSaid(turns[1..])
  }

  lemma {:induction false} TotalIsLength(turns: seq<Turn>)
    ensures TotalBytes(turns) == ByteLen(AllSaid(turns))
  {
    if turns != [] {
      TotalIsLength(turns[1..]);
      ByteLenAppend(turns[0].content, AllSaid(turns[1..]));
    }
  }

  /** What the turns say, an empty line between any two. */
  function Paragraphs(turns: seq<Turn>): string
    requires turns != []
  {
    if |turns| == 1 then turns[0].content else turns[0].content + ("\n\n" + Paragraphs(turns[1..]))
  }

  lemma {:induction false} JoinedIsParagraphs(turns: seq<Turn>)
    requires turns != []
    ensures Joined(turns) == Paragraphs(turns)
    decreases |turns|
  {
    var n := |turns| - 1;
    if n > 0 {
      JoinedIsParagraphs(turns[..n]);
      ParagraphsPush(turns[..n], turns[n]);
      assert turns[..n] + [turns[n]] == turns;
      hide Paragraphs;
      assert Joined(turns) == Joined(turns[..n]) + "\n\n" + turns[n].content;
      AddParagraph(Joined(turns[..n]), turns[n].content);
    }
  }

  lemma {:induction false} AddParagraph(text: string, more: string)
    ensures text + "\n\n" + more == text + ("\n\n" + more)
  {
  }

  lemma {:induction false} ParagraphsPush(turns: seq<Turn>, turn: Turn)
    requires turns != []
    ensures Paragraphs(turns + [turn]) == Paragraphs(turns) + ("\n\n" + turn.content)
  {
    if |turns| == 1 {
      assert (turns + [turn])[1..] == [turn];
    } else {
      ParagraphsPush(turns[1..], turn);
      assert (turns + [turn])[1..] == turns[1..] + [turn];
      var first, middle, last := turns[0].content, Paragraphs(turns[1..]), "\n\n" + turn.content;
      hide Paragraphs;
      assert first + ("\n\n" + (middle + last)) == first + ("\n\n" + middle) + last;
    }
  }

  // ----- Runs of one side -----

  /** One side says all of it, and the turn is made of its paragraphs. */
  ghost predicate IsRunOf(run: seq<Turn>, turn: Turn)
  {
    && run != [] && (forall j | 0 <= j < |run| :: run[j].role == turn.role)
    && turn.content == Paragraphs(run)
  }

  /** The cuts divide the turns into runs, one for each turn of the result. */
  ghost predicate AreCutInto(turns: seq<Turn>, cuts: seq<nat>, result: seq<Turn>)
  {
    && |cuts| == |result| + 1 && cuts[0] == 0 && cuts[|result|] == |turns|
    && forall k | 0 <= k < |result| :: IsRunBetween(turns, cuts[k], cuts[k + 1], result[k])
  }

  ghost predicate IsRunBetween(turns: seq<Turn>, from: nat, to: nat, turn: Turn)
  {
    from <= to <= |turns| && IsRunOf(turns[from..to], turn)
  }

  lemma {:induction false} FlatCuts(runs: seq<seq<Turn>>, result: seq<Turn>) returns (cuts: seq<nat>)
    requires AreRunsOf(runs, result)
    ensures AreCutInto(Flat(runs), cuts, result)
    decreases |runs|
  {
    if runs == [] {
      cuts := [0];
    } else {
      var n := |runs| - 1;
      assert AreRunsOf(runs[..n], result[..n]);
      cuts := FlatCuts(runs[..n], result[..n]);
      JoinedIsParagraphs(runs[n]);
      assert IsRunOf(runs[n], result[n]);
      assert Flat(runs) == Flat(runs[..n]) + runs[n];
      hide Flat, AreRunsOf, IsRunOf;
      OneMoreCut(Flat(runs[..n]), cuts, result[..n], runs[n], result[n]);
      assert result[..n] + [result[n]] == result;
      cuts := cuts + [|Flat(runs)|];
    }
  }

  lemma {:induction false} OneMoreCut(
    turns: seq<Turn>, cuts: seq<nat>, result: seq<Turn>, run: seq<Turn>, turn: Turn)
    requires AreCutInto(turns, cuts, result) && IsRunOf(run, turn)
    ensures AreCutInto(turns + run, cuts + [|turns + run|], result + [turn])
  {
    hide IsRunOf;
    var all, more := cuts + [|turns + run|], result + [turn];
    forall k | 0 <= k < |more|
      ensures IsRunBetween(turns + run, all[k], all[k + 1], more[k])
    {
      if k < |result| {
        assert IsRunBetween(turns, cuts[k], cuts[k + 1], result[k]);
        assert (turns + run)[cuts[k]..cuts[k + 1]] == turns[cuts[k]..cuts[k + 1]];
      } else {
        assert all[k] == |turns| && all[k + 1] == |turns + run|;
        assert (turns + run)[|turns|..|turns + run|] == run;
      }
    }
  }

  // ----- The history -----

  /**
   A history is made of the latest messages that are said. From `taken` on they are within
   the limits, and one more would break one of them; answers ahead of the first question
   are left out. The rest is cut into runs of one side, each of which is one turn with its
   paragraphs, and the sides alternate. If nothing is left, the prompt is the history.
   */
  lemma {:induction false} HistoryIsWhatWasSaid(messages: seq<ChatMessage>, fallbackPrompt: string)
    returns (positions: seq<nat>, said: seq<Turn>, taken: nat, first: nat, cuts: seq<nat>)
    ensures AreSaid(positions, said, messages) && taken <= first <= |said|
    ensures |said| - taken <= 48 && (ByteLen(AllSaid(said[taken..])) <= 98_304 || |said| - taken == 1)
    ensures taken > 0 ==>
              |said| - taken == 48 || (taken < |said| && ByteLen(AllSaid(said[taken - 1..])) > 98_304)
    ensures forall k | taken <= k < first :: said[k].role == AssistantRole
    ensures var history := History(messages, fallbackPrompt);
            if first < |said| then
              && said[first].role == UserRole
              && AreCutInto(said[first..], cuts, history)
              && forall k | 0 < k < |history| :: history[k].role != history[k - 1].role
            else
              history == if Trim(fallbackPrompt) == "" then [] else [Turn(UserRole, Trim(fallbackPrompt))]
  {
    said := Eligible(messages);
    positions := EligibleAreSaid(messages);
    hide Eligible, AreSaid, ByteLen, AllSaid, Trim;
    taken := TakenFrom(said);
    var dropped := DropLeadsWithUser(said[taken..]);
    first := taken + dropped;
    DropTwice(said, taken, dropped);
    cuts := CutsOf(said[first..]);
    hide Coalesced, AreCutInto, Selected, DropLeadingAssistant;
    if first == |said| {
      assert Coalesced(said[first..]) == [];
    }
  }

  lemma {:induction false} DropTwice(turns: seq<Turn>, a: nat, b: nat)
    requires a + b <= |turns|
    ensures turns[a..][b..] == turns[a + b..]
  {
  }

  lemma {:induction false} CutsOf(turns: seq<Turn>) returns (cuts: seq<nat>)
    ensures AreCutInto(turns, cuts, Coalesced(turns))
    ensures forall k | 0 < k < |Coalesced(turns)| :: Coalesced(turns)[k].role != Coalesced(turns)[k - 1].role
    ensures turns == [] <==> Coalesced(turns) == []
  {
    var runs := CoalescedIsRuns(turns);
    cuts := FlatCuts(runs, Coalesced(turns));
    CoalescedAlternates(turns);
  }

  lemma {:induction false} TakenFrom(said: seq<Turn>) returns (taken: nat)
    ensures taken <= |said| && Selected(said) == said[taken..]
    ensures |said| - taken <= 48 && (ByteLen(AllSaid(said[taken..])) <= 98_304 || |said| - taken == 1)
    ensures taken > 0 ==>
              |said| - taken == 48 || (taken < |said| && ByteLen(AllSaid(said[taken - 1..])) > 98_304)
  {
    var count := Taken(said, 0, 0);
    assert Latest(said, 0) == [];
    TakenIsLargest(said, 0, 0);
    hide Taken, ByteLen, AllSaid, TotalBytes;
    taken := |said| - count;
    assert Latest(said, count) == said[taken..];
    TotalIsLength(said[taken..]);
    if taken > 0 && |said| - taken < 48 {
      assert Latest(said, count + 1) == said[taken - 1..];
      TotalIsLength(said[taken - 1..]);
    }
  }
}
