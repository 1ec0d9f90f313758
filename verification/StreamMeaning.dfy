/** Which lines of a stream are handed on, which of them carry data, and what the reader makes of the whole. */
module StreamMeaning {
  import opened Wrappers
  import opened Text
  import opened LineFraming
  import opened DisplayChunks
  import opened DirectAiStream

  // ----- The text handed to the line step -----

  /** The line less its carriage returns at the end, and less nothing else. */
  ghost predicate IsStripped(stripped: string, line: string)
  {
    && |stripped| <= |line| && stripped == line[..|stripped|]
    && (forall k | |stripped| <= k < |line| :: line[k] == '\r')
    && (stripped != [] ==> stripped[|stripped| - 1] != '\r')
  }

  lemma {:induction false} TrimEndCrStrips(line: string)
    ensures IsStripped(TrimEndCr(line), line)
  {
    if line != [] && line[|line| - 1] == '\r' {
      var shorter := line[..|line| - 1];
      TrimEndCrStrips(shorter);
      var n := |TrimEndCr(shorter)|;
      assert line[..n] == shorter[..n];
      forall k | n <= k < |line|
        ensures line[k] == '\r'
      {
        if k < |line| - 1 {
          assert shorter[k] == line[k];
        }
      }
    } else {
      assert line[..|line|] == line;
    }
  }

  /** The step is run once on every finished line, stripped, each time on the state that the line before left. */
  lemma {:induction false} LinesAreHandedOver<S, O>(text: string, state: S, step: (S, string) -> (S, O))
    returns (handed: seq<string>, states: seq<S>)
    ensures var framed, lines := Frame(text, state, step), Lines(text);
            && |handed| == |lines| == |framed.outputs| && |states| == |lines| + 1
            && states[0] == state && states[|lines|] == framed.state
            && (forall k | 0 <= k < |lines| :: IsStripped(handed[k], lines[k]))
            && (forall k | 0 <= k < |lines| :: (states[k + 1], framed.outputs[k]) == step(states[k], handed[k]))
  {
    FrameFoldsLines(text, state, step);
    hide Frame;
    handed, states := FoldHandsOver(Lines(text), state, step);
  }

  lemma {:induction false} FoldHandsOver<S, O>(lines: seq<string>, state: S, step: (S, string) -> (S, O))
    returns (handed: seq<string>, states: seq<S>)
    ensures var (last, outputs) := Fold(lines, state, step);
            && |handed| == |lines| == |outputs| && |states| == |lines| + 1
            && states[0] == state && states[|lines|] == last
            && (forall k | 0 <= k < |lines| :: IsStripped(handed[k], lines[k]))
            && (forall k | 0 <= k < |lines| :: (states[k + 1], outputs[k]) == step(states[k], handed[k]))
  {
    if lines == [] {
      handed, states := [], [state];
    } else {
      var first := TrimEndCr(lines[0]);
      TrimEndCrStrips(lines[0]);
      hide TrimEndCr, IsStripped;
      var laterHanded, laterStates := FoldHandsOver(lines[1..], step(state, first).0, step);
      handed, states := [first] + laterHanded, [state] + laterStates;
      var outputs := Fold(lines, state, step).1;
      forall k | 0 <= k < |lines|
        ensures IsStripped(handed[k], lines[k]) && (states[k + 1], outputs[k]) == step(states[k], handed[k])
      {
        if k > 0 {
          assert lines[1..][k - 1] == lines[k];
        }
      }
    }
  }

  // ----- Lines that carry data -----

  /** A data line: up to white space it reads `data:` and then something other than the end mark. */
  ghost predicate Carries(line: string, data: string)
  {
    && data != "" && data != "[DONE]" && IsTight(data)
    && exists before, between, after ::
         IsBlank(before) && IsBlank(between) && IsBlank(after) && IsMadeOf(line, before, between, data, after)
  }

  predicate IsMadeOf(line: string, before: string, between: string, data: string, after: string)
  {
    line == before + ("data:" + (between + data)) + after
  }

  lemma {:induction false} DataIsCarried(line: string)
    requires DataOf(line).Some?
    ensures Carries(line, DataOf(line).value)
  {
    var trimmed := Trim(line);
    var before, after := TrimCuts(line);
    var between, behind := TrimCuts(trimmed[5..]);
    var data := Trim(trimmed[5..]);
    hide Trim, IsTight;
    assert trimmed == "data:" + trimmed[5..];
    NothingBehind(trimmed, between, data, behind);
    assert IsMadeOf(line, before, between, data, after);
  }

  /** A trimmed text has no white space left behind the last piece of it. */
  lemma {:induction false} NothingBehind(trimmed: string, between: string, data: string, behind: string)
    requires IsTight(trimmed) && |trimmed| >= 5 && trimmed[5..] == between + data + behind
    requires IsBlank(behind) && data != ""
    ensures trimmed[5..] == between + data
  {
    assert behind == "";
    assert between + data + behind == between + data;
  }

  lemma {:induction false} CarriedIsData(line: string, data: string)
    requires Carries(line, data)
    ensures DataOf(line) == Some(data)
  {
    var before, between, after :|
      IsBlank(before) && IsBlank(between) && IsBlank(after) && IsMadeOf(line, before, between, data, after);
    var core := "data:" + (between + data);
    LabelIsTight(between, data);
    TrimIs(before, core, after);
    TrimIs(between, data, "");
    hide Trim, IsTight, IsBlank;
    assert between + data + "" == between + data;
    assert core[..5] == "data:" && core[5..] == between + data;
  }

  lemma {:induction false} LabelIsTight(between: string, data: string)
    requires IsTight(data) && data != ""
    ensures IsTight("data:" + (between + data))
  {
    var core := "data:" + (between + data);
    assert core[0] == 'd';
    assert core[|core| - 1] == data[|data| - 1];
  }

  /** Exactly the data lines are looked into, and for their data. */
  lemma {:induction false} DataLinesAre(line: string)
    ensures forall data :: DataOf(line) == Some(data) <==> Carries(line, data)
  {
    hide DataOf, Carries;
    forall data
      ensures DataOf(line) == Some(data) <==> Carries(line, data)
    {
      if DataOf(line) == Some(data) {
        DataIsCarried(line);
      }
      if Carries(line, data) {
        CarriedIsData(line, data);
      }
    }
  }

  /** The line ends in carriage returns or not: it carries the same data. */
  lemma {:induction false} StrippingIsInvisible(line: string)
    ensures DataOf(TrimEndCr(line)) == DataOf(line)
    ensures DataOf(Trim(line)) == DataOf(line)
  {
    TrimEndCrStrips(line);
    var stripped := TrimEndCr(line);
    var before, after := TrimCuts(stripped);
    var ending := line[|stripped|..];
    assert IsBlank(after + ending);
    assert line == stripped + ending;
    TrimIs(before, Trim(stripped), after + ending);
    TrimIsIdempotent(line);
    hide Trim;
    Regroup(before, Trim(stripped), after, ending);
  }

  lemma {:induction false} Regroup(a: string, b: string, c: string, d: string)
    ensures a + b + c + d == a + b + (c + d)
  {
  }

  // ----- What one line does -----

  /** What a line reports: the delta and the usage of its event, if it carries one that can be read. */
  ghost predicate Reports(parse: string -> Option<SseEvent>, line: string, delta: string, usage: Option<nat>)
  {
    if exists data :: Carries(line, data) && parse(data).Some?
    then exists data :: Carries(line, data) && parse(data) == Some(SseEvent(usage, delta))
    else delta == "" && usage == None
  }

  /** The delta is added to the text and shown; a usage replaces the one known so far. */
  predicate Extends(before: StreamState, after: StreamState, shown: seq<string>, delta: string, usage: Option<nat>)
  {
    && after.text == before.text + delta && Concat(shown) == delta
    && (after.streamed <==> before.streamed || delta != "")
    && after.usage == (if usage.Some? then usage else before.usage)
  }

  lemma {:induction false} LineDoesExactly(parse: string -> Option<SseEvent>, state: StreamState, line: string)
    returns (delta: string, usage: Option<nat>)
    ensures Reports(parse, line, delta, usage)
    ensures Extends(state, ProcessLine(parse, state, line).0, ProcessLine(parse, state, line).1, delta, usage)
  {
    DataLinesAre(line);
    LineShowsWhatItAdds(parse, state, line);
    var data := DataOf(line);
    hide Carries, DataOf;
    if data.Some? && parse(data.value).Some? {
      delta, usage := parse(data.value).value.delta, parse(data.value).value.usage;
      assert Carries(line, data.value) && parse(data.value) == Some(SseEvent(usage, delta));
      EventExtends(parse, state, line, data.value);
    } else {
      delta, usage := "", None;
      assert state.text + "" == state.text;
    }
  }

  lemma {:induction false} EventExtends(
    parse: string -> Option<SseEvent>, state: StreamState, line: string, data: string)
    requires DataOf(line) == Some(data) && parse(data).Some?
    ensures var (after, shown) := ProcessLine(parse, state, line);
            Extends(state, after, shown, parse(data).value.delta, parse(data).value.usage)
  {
    DisplayChunksAreLossless(parse(data).value.delta);
    assert state.text + "" == state.text;
    hide DataOf;
  }

  // ----- What the whole stream comes to -----

  /** The last usage among the reports. */
  ghost predicate IsLastReport(usages: seq<Option<nat>>, usage: Option<nat>)
  {
    if usage.None? then forall k | 0 <= k < |usages| :: usages[k].None?
    else exists k :: 0 <= k < |usages| && usages[k] == usage && forall j | k < j < |usages| :: usages[j].None?
  }

  lemma {:induction false} LastReportGrows(usage: Option<nat>, usages: seq<Option<nat>>, last: Option<nat>)
    requires IsLastReport(usages, last)
    ensures IsLastReport([usage] + usages, if last.Some? then last else usage)
  {
    var all := [usage] + usages;
    if last.Some? {
      var k :| 0 <= k < |usages| && usages[k] == last && forall j | k < j < |usages| :: usages[j].None?;
      assert all[k + 1] == last;
      forall j | k + 1 < j < |all|
        ensures all[j].None?
      {
        assert all[j] == usages[j - 1];
      }
    } else {
      assert all[0] == usage;
    }
  }

  lemma {:induction false} ExtendsInTurn(
    before: StreamState, between: StreamState, after: StreamState, shown: seq<string>, laterShown: seq<string>,
    delta: string, laterDelta: string, usage: Option<nat>, laterUsage: Option<nat>)
    requires Extends(before, between, shown, delta, usage)
    requires Extends(between, after, laterShown, laterDelta, laterUsage)
    ensures Extends(before, after, shown + laterShown, delta + laterDelta,
                    if laterUsage.Some? then laterUsage else usage)
  {
    ConcatAppend(shown, laterShown);
    Reassociate(before.text, delta, laterDelta);
  }

  lemma {:induction false} LinesSay(
    parse: string -> Option<SseEvent>, lines: seq<string>, rest: string, state: StreamState)
    returns (deltas: seq<string>, usages: seq<Option<nat>>, usage: Option<nat>)
    ensures |deltas| == |usages| == |lines| + 1
    ensures forall k | 0 <= k < |lines| :: Reports(parse, lines[k], deltas[k], usages[k])
    ensures Reports(parse, rest, deltas[|lines|], usages[|lines|])
    ensures var (after, outputs) := Fold(lines, state, (s, line) => ProcessLine(parse, s, line));
            var (final, last) := Closed(parse, after, rest);
            Extends(state, final, Flatten(outputs) + last, Concat(deltas), usage) && IsLastReport(usages, usage)
  {
    hide Extends, Reports, IsLastReport, ProcessLine;
    if lines == [] {
      var delta: string;
      delta, usage := RestSays(parse, state, rest);
      deltas, usages := [delta], [usage];
      ConcatOne(delta);
      OnlyReport(usage);
      assert Flatten([]) + Closed(parse, state, rest).1 == Closed(parse, state, rest).1;
    } else {
      hide Closed;
      var step := (s, line) => ProcessLine(parse, s, line);
      var (next, output) := ProcessLine(parse, state, TrimEndCr(lines[0]));
      var delta, here := LineDoesExactly(parse, state, TrimEndCr(lines[0]));
      StrippedReports(parse, lines[0], delta, here);
      var laterDeltas, laterUsages, later := LinesSay(parse, lines[1..], rest, next);
      deltas, usages := [delta] + laterDeltas, [here] + laterUsages;
      usage := if later.Some? then later else here;
      LastReportGrows(here, laterUsages, later);
      var (after, outputs) := Fold(lines[1..], next, step);
      assert Fold(lines, state, step) == (after, [output] + outputs);
      var (final, last) := Closed(parse, after, rest);
      hide Fold;
      ExtendsInTurn(state, next, final, output, Flatten(outputs) + last, delta, Concat(laterDeltas), here, later);
      FlattenFirst(output, outputs, last);
      ConcatFirst(delta, laterDeltas);
      hide Concat, Flatten;
      forall k | 0 <= k < |lines|
        ensures Reports(parse, lines[k], deltas[k], usages[k])
      {
        if k > 0 {
          assert lines[1..][k - 1] == lines[k];
        }
      }
    }
  }

  lemma {:induction false} OnlyReport(usage: Option<nat>)
    ensures IsLastReport([usage], usage)
  {
    assert [usage][0] == usage;
  }

  lemma {:induction false} FlattenFirst(first: seq<string>, later: seq<seq<string>>, last: seq<string>)
    ensures Flatten([first] + later) + last == first + (Flatten(later) + last)
  {
    assert ([first] + later)[1..] == later;
    AppendPieces(first, Flatten(later), last);
  }

  lemma {:induction false} ConcatFirst(first: string, later: seq<string>)
    ensures Concat([first] + later) == first + Concat(later)
  {
    assert ([first] + later)[1..] == later;
  }

  lemma {:induction false} StrippedReports(
    parse: string -> Option<SseEvent>, line: string, delta: string, usage: Option<nat>)
    ensures Reports(parse, TrimEndCr(line), delta, usage) <==> Reports(parse, line, delta, usage)
    ensures Reports(parse, Trim(line), delta, usage) <==> Reports(parse, line, delta, usage)
  {
    DataLinesAre(line);
    DataLinesAre(TrimEndCr(line));
    DataLinesAre(Trim(line));
    StrippingIsInvisible(line);
    hide Trim, TrimEndCr, Carries, DataOf;
    assert forall data :: Carries(TrimEndCr(line), data) <==> Carries(line, data);
    assert forall data :: Carries(Trim(line), data) <==> Carries(line, data);
  }

  lemma {:induction false} RestSays(parse: string -> Option<SseEvent>, state: StreamState, rest: string)
    returns (delta: string, usage: Option<nat>)
    ensures Reports(parse, rest, delta, usage)
    ensures Extends(state, Closed(parse, state, rest).0, Closed(parse, state, rest).1, delta, usage)
  {
    delta, usage := LineDoesExactly(parse, state, Trim(rest));
    StrippedReports(parse, rest, delta, usage);
    if Trim(rest) == "" {
      DataLinesAre(Trim(rest));
      hide Trim, Carries;
      assert DataOf("") == None;
      assert state.text + "" == state.text;
    }
  }

  /**
   The text that is returned is made of the deltas of the data lines, in order, the last
   line included although nothing ends it; the usage is the last one reported.
   */
  lemma {:induction false} StreamSaysItsDeltas(parse: string -> Option<SseEvent>, chunks: seq<string>)
    returns (deltas: seq<string>, usages: seq<Option<nat>>)
    ensures var lines := Lines(Concat(chunks)) + [Rest(Concat(chunks))];
            && |deltas| == |usages| == |lines|
            && forall k | 0 <= k < |lines| :: Reports(parse, lines[k], deltas[k], usages[k])
    ensures var (final, shown) := ReadAll(parse, chunks);
            && final.text == Concat(deltas) == Concat(shown) && IsLastReport(usages, final.usage)
            && (final.streamed <==> Concat(deltas) != "")
  {
    var text := Concat(chunks);
    hide Concat, Frame, PushEach, Fold, Closed, Reports, IsLastReport;
    ChunksAreOne(parse, chunks);
    FrameFoldsLines(text, FRESH, (s, line) => ProcessLine(parse, s, line));
    var usage;
    deltas, usages, usage := LinesSay(parse, Lines(text), Rest(text), FRESH);
    assert "" + Concat(deltas) == Concat(deltas);
  }
}
