/** Reading a server-sent-event stream: framed lines, display chunks and usage. */
module DirectAiStream {
  import opened Wrappers
  import opened Text
  import opened LineFraming
  import opened DisplayChunks

  /** What the code takes from one JSON event: token usage, if reported, and the text delta. */
  datatype SseEvent = SseEvent(usage: Option<nat>, delta: string)

  datatype StreamState = StreamState(text: string, streamed: bool, usage: Option<nat>)

  const FRESH := StreamState("", false, None)

  /** The payload of a data line, or nothing for any other line. */
  function DataOf(line: string): Option<string>
  {
    var trimmed := Trim(line);
    if |trimmed| < 5 || trimmed[..5] != "data:" then None
    else
      var data := Trim(trimmed[5..]);
      if data == "" || data == "[DONE]" then None else Some(data)
  }

  /** One line, for any JSON parser; the output lists the chunks shown. */
  function ProcessLine(parse: string -> Option<SseEvent>, state: StreamState, line: string): (StreamState, seq<string>)
  {
    var data := DataOf(line);
    if data.None? then (state, [])
    else
      var event := parse(data.value);
      if event.None? then (state, [])
      else
        var withUsage := if event.value.usage.Some? then state.(usage := event.value.usage) else state;
        if event.value.delta == "" then (withUsage, [])
        else
          (withUsage.(text := state.text + event.value.delta, streamed := true), ChunksOf(event.value.delta))
  }

  function Flatten(lists: seq<seq<string>>): seq<string>
  {
    if lists == [] then [] else lists[0] + Flatten(lists[1..])
  }

  lemma {:induction false} FlattenAppend(a: seq<seq<string>>, b: seq<seq<string>>)
    ensures Flatten(a + b) == Flatten(a) + Flatten(b)
  {
    if a == [] {
      assert a + b == b;
    } else {
      FlattenAppend(a[1..], b);
      assert (a + b)[1..] == a[1..] + b;
      AppendPieces(a[0], Flatten(a[1..]), Flatten(b));
    }
  }

  class SseReader {
    const parse: string -> Option<SseEvent>
    var buffer: string
    var state: StreamState
    /** The chunks handed to the display callback so far. */
    var shown: seq<string>

    constructor (parse: string -> Option<SseEvent>)
      ensures this.parse == parse && buffer == "" && state == FRESH && shown == []
    {
      this.parse, buffer, state, shown := parse, "", FRESH, [];
    }

    function Step(): (StreamState, string) -> (StreamState, seq<string>)
    {
      (state, line) => ProcessLine(parse, state, line)
    }

    method ProcessSseLine(line: string)
      modifies this`state, this`shown
      ensures state == ProcessLine(parse, old(state), line).0
      ensures shown == old(shown) + ProcessLine(parse, old(state), line).1
    {
      var data := DataOf(line);
      if data.None? {
        return;
      }
      var event := parse(data.value);
      if event.None? {
        return;
      }
      if event.value.usage.Some? {
        state := state.(usage := event.value.usage);
      }
      if event.value.delta == "" {
        return;
      }
      state := state.(streamed := true, text := state.text + event.value.delta);
      var chunks := DirectAiDisplayChunks(event.value.delta);
      shown := shown + chunks;
    }

    /** Network bytes, already decoded to text, arrive and the finished lines are drained. */
    method PushText(chunk: string)
      modifies this
      ensures var framed := Frame(old(buffer) + chunk, old(state), Step());
              buffer == framed.rest && state == framed.state && shown == old(shown) + Flatten(framed.outputs)
    {
      buffer := buffer + chunk;
      ghost var before := shown;
      ghost var framed := Frame(buffer, state, Step());
      ghost var outputs: seq<seq<string>> := [];
      AfterNothing(framed);
      var index := NewlineAt(buffer);
      while index < |buffer|
        invariant index == NewlineAt(buffer)
        invariant shown == before + Flatten(outputs)
        invariant framed == After(outputs, Frame(buffer, state, Step()))
        decreases |buffer|
      {
        FrameOneLine(buffer, state, Step());
        ghost var output := ProcessLine(parse, state, TrimEndCr(buffer[..index])).1;
        var line := TrimEndCr(buffer[..index]);
        buffer := buffer[index + 1..];
        ProcessSseLine(line);
        FlattenAppend(outputs, [output]);
        assert Flatten([output]) == output;
        AppendPieces(before, Flatten(outputs), output);
        AfterAfter(outputs, [output], Frame(buffer, state, Step()));
        outputs := outputs + [output];
        index := NewlineAt(buffer);
      }
      assert outputs + [] == outputs;
    }

    /** The end of the stream: a last line without a newline is processed, trimmed. */
    method Finish()
      modifies this`state, this`shown
      ensures state == Closed(parse, old(state), buffer).0 && shown == old(shown) + Closed(parse, old(state), buffer).1
    {
      if Trim(buffer) != "" {
        ProcessSseLine(Trim(buffer));
      }
    }

    /** The whole stream: its chunks in turn, then its end. */
    method ReadDirectAiResponse(chunks: seq<string>)
      requires buffer == "" && state == FRESH && shown == []
      modifies this
      ensures (state, shown) == ReadAll(parse, chunks)
    {
      hide Frame, Concat, Flatten, PushEach, Closed;
      NothingFramed(parse);
      assert chunks[..0] == [];
      for k := 0 to |chunks|
        invariant HasRead(parse, chunks[..k], buffer, state, shown)
      {
        ReadOneMore(parse, chunks[..k], chunks[k], buffer, state, shown);
        assert chunks[..k + 1] == chunks[..k] + [chunks[k]];
        PushText(chunks[k]);
      }
      assert chunks[..|chunks|] == chunks;
      ChunksAreOne(parse, chunks);
      Finish();
    }
  }

  /** How the reader stands after some chunks: as if they had arrived in one piece. */
  ghost predicate HasRead(
    parse: string -> Option<SseEvent>, chunks: seq<string>, buffer: string, state: StreamState, shown: seq<string>)
  {
    var framed := Frame(Concat(chunks), FRESH, (s, line) => ProcessLine(parse, s, line));
    buffer == framed.rest && state == framed.state && shown == Flatten(framed.outputs)
  }

  lemma {:induction false} NothingFramed(parse: string -> Option<SseEvent>)
    ensures HasRead(parse, [], "", FRESH, [])
  {
  }

  lemma {:induction false} ReadOneMore(
    parse: string -> Option<SseEvent>, chunks: seq<string>, chunk: string,
    buffer: string, state: StreamState, shown: seq<string>)
    requires HasRead(parse, chunks, buffer, state, shown)
    ensures var framed := Frame(buffer + chunk, state, (s, line) => ProcessLine(parse, s, line));
            HasRead(parse, chunks + [chunk], framed.rest, framed.state, shown + Flatten(framed.outputs))
  {
    hide Frame, Concat, Flatten, ProcessLine;
    var step := (s, line) => ProcessLine(parse, s, line);
    FrameAppend(Concat(chunks), chunk, FRESH, step);
    ConcatAppend(chunks, [chunk]);
    ConcatOne(chunk);
    FlattenAppend(Frame(Concat(chunks), FRESH, step).outputs, Frame(buffer + chunk, state, step).outputs);
  }

  function Closed(parse: string -> Option<SseEvent>, state: StreamState, buffer: string): (StreamState, seq<string>)
  {
    if Trim(buffer) == "" then (state, []) else ProcessLine(parse, state, Trim(buffer))
  }

  // ----- What the reader shows -----

  /** Shown chunks and collected text agree, line by line. */
  lemma {:induction false} LineShowsWhatItAdds(parse: string -> Option<SseEvent>, state: StreamState, line: string)
    ensures ProcessLine(parse, state, line).0.text == state.text + Concat(ProcessLine(parse, state, line).1)
    ensures AllShown(ProcessLine(parse, state, line).1)
    ensures ProcessLine(parse, state, line).0.streamed <==> state.streamed || ProcessLine(parse, state, line).1 != []
  {
    var data := DataOf(line);
    assert state.text + [] == state.text;
    if data.Some? && parse(data.value).Some? {
      DisplayChunksAreLossless(parse(data.value).value.delta);
    }
  }

  lemma {:induction false} FrameShowsWhatItAdds(
    parse: string -> Option<SseEvent>, lines: seq<string>, state: StreamState)
    ensures var (after, outputs) := Fold(lines, state, (s, line) => ProcessLine(parse, s, line));
            && after.text == state.text + Concat(Flatten(outputs)) && AllShown(Flatten(outputs))
            && (after.streamed <==> state.streamed || Flatten(outputs) != [])
  {
    if lines == [] {
      assert state.text + [] == state.text;
    } else {
      var (next, output) := ProcessLine(parse, state, TrimEndCr(lines[0]));
      LineShowsWhatItAdds(parse, state, TrimEndCr(lines[0]));
      FrameShowsWhatItAdds(parse, lines[1..], next);
      var (after, outputs) := Fold(lines[1..], next, (s, line) => ProcessLine(parse, s, line));
      assert ([output] + outputs)[1..] == outputs;
      ConcatAppend(output, Flatten(outputs));
      Reassociate(state.text, Concat(output), Concat(Flatten(outputs)));
    }
  }

  /** The reader at the end of the stream: the chunks arrived one by one, and the rest was closed. */
  function ReadAll(parse: string -> Option<SseEvent>, chunks: seq<string>): (StreamState, seq<string>)
  {
    var read := PushEach(chunks, "", FRESH, (state, line) => ProcessLine(parse, state, line));
    var (final, last) := Closed(parse, read.state, read.rest);
    (final, Flatten(read.outputs) + last)
  }

  /**
   However the network cuts the stream, the reader ends in the same state having shown
   the same chunks, those of a last line without a newline included; each can be shown,
   and together they are the text that is returned.
   */
  lemma {:induction false} StreamIsLossless(parse: string -> Option<SseEvent>, chunks: seq<string>)
    ensures ReadAll(parse, chunks) == ReadAll(parse, [Concat(chunks)])
    ensures var (final, shown) := ReadAll(parse, chunks);
            && final.text == Concat(shown) && AllShown(shown)
            && (final.streamed <==> shown != [])
  {
    hide PushEach, Frame, Concat, Closed, Flatten;
    ChunksAreOne(parse, chunks);
    ChunksAreOne(parse, [Concat(chunks)]);
    ConcatOne(Concat(chunks));
    ReadingShowsWhatItCollects(parse, chunks);
  }

  lemma {:induction false} ConcatOne(text: string)
    ensures Concat([text]) == text
  {
    assert [text][1..] == [] && text + [] == text;
  }

  lemma {:induction false} ReadingShowsWhatItCollects(parse: string -> Option<SseEvent>, chunks: seq<string>)
    ensures var (final, shown) := ReadAll(parse, chunks);
            && final.text == Concat(shown) && AllShown(shown)
            && (final.streamed <==> shown != [])
  {
    hide ProcessLine, Frame, PushEach, Concat, Flatten, IsShown, Closed;
    var read := PushEach(chunks, "", FRESH, (state, line) => ProcessLine(parse, state, line));
    ChunksAreOne(parse, chunks);
    FrameFoldsLines(Concat(chunks), FRESH, (state, line) => ProcessLine(parse, state, line));
    FrameShowsWhatItAdds(parse, Lines(Concat(chunks)), FRESH);
    ClosingShowsWhatItAdds(parse, read.state, read.rest);
    ConcatAppend(Flatten(read.outputs), Closed(parse, read.state, read.rest).1);
    assert "" + Concat(Flatten(read.outputs)) == Concat(Flatten(read.outputs));
  }

  lemma {:induction false} ChunksAreOne(parse: string -> Option<SseEvent>, chunks: seq<string>)
    ensures var step := (state, line) => ProcessLine(parse, state, line);
            PushEach(chunks, "", FRESH, step) == Frame(Concat(chunks), FRESH, step)
  {
    ChunksDoNotMatter(chunks, "", FRESH, (state, line) => ProcessLine(parse, state, line));
    assert "" + Concat(chunks) == Concat(chunks);
  }

  lemma {:induction false} ClosingShowsWhatItAdds(parse: string -> Option<SseEvent>, state: StreamState, rest: string)
    ensures var (final, last) := Closed(parse, state, rest);
            && final.text == state.text + Concat(last) && AllShown(last)
            && (final.streamed <==> state.streamed || last != [])
  {
    LineShowsWhatItAdds(parse, state, Trim(rest));
    assert state.text + Concat([]) == state.text;
    hide Trim, ProcessLine;
  }
}
