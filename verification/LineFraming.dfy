/**
 Cutting a stream of text chunks into lines. The live-output normalisers and the
 server-sent-event reader buffer an unfinished line, hand each finished one to a line
 step that updates their state, and keep the rest. What they produce is proved not to
 depend on where the chunks were cut.
 */
module LineFraming {

  /** The position of the first newline, or the length if there is none. */
  function NewlineAt(text: string): (n: nat)
    ensures n <= |text|
    ensures n < |text| ==> text[n] == '\n'
    ensures forall k | 0 <= k < n :: text[k] != '\n'
  {
    if text == [] || text[0] == '\n' then 0 else 1 + NewlineAt(text[1..])
  }

  function TrimEndCr(line: string): string
  {
    if line != [] && line[|line| - 1] == '\r' then TrimEndCr(line[..|line| - 1]) else line
  }

  /** The outputs of the finished lines, the unfinished rest, and the state after them. */
  datatype Framed<S, O> = Framed(outputs: seq<O>, rest: string, state: S)

  function Frame<S, O>(text: string, state: S, step: (S, string) -> (S, O)): Framed<S, O>
    decreases |text|
  {
    var n := NewlineAt(text);
    if n == |text| then Framed([], text, state)
    else
      var (next, output) := step(state, TrimEndCr(text[..n]));
      var later := Frame(text[n + 1..], next, step);
      Framed([output] + later.outputs, later.rest, later.state)
  }

  // ----- What framing means -----

  function Lines(text: string): seq<string>
    decreases |text|
  {
    var n := NewlineAt(text);
    if n == |text| then [] else [text[..n]] + Lines(text[n + 1..])
  }

  function Rest(text: string): string
    decreases |text|
  {
    var n := NewlineAt(text);
    if n == |text| then text else Rest(text[n + 1..])
  }

  function Unlines(lines: seq<string>): string
  {
    if lines == [] then [] else lines[0] + ("\n" + Unlines(lines[1..]))
  }

  function Fold<S, O>(lines: seq<string>, state: S, step: (S, string) -> (S, O)): (S, seq<O>)
  {
    if lines == [] then (state, [])
    else
      var (next, output) := step(state, TrimEndCr(lines[0]));
      var (last, outputs) := Fold(lines[1..], next, step);
      (last, [output] + outputs)
  }

  predicate IsOneLine(text: string)
  {
    forall k | 0 <= k < |text| :: text[k] != '\n'
  }

  lemma {:induction false} UnlinesPush(line: string, lines: seq<string>, rest: string)
    ensures Unlines([line] + lines) + rest == line + ("\n" + (Unlines(lines) + rest))
  {
    assert ([line] + lines)[1..] == lines;
  }

  /** The lines and the rest are the text itself, cut at its newlines. */
  lemma {:induction false} LinesCutTheText(text: string)
    ensures text == Unlines(Lines(text)) + Rest(text) && IsOneLine(Rest(text))
    ensures forall k | 0 <= k < |Lines(text)| :: IsOneLine(Lines(text)[k])
    decreases |text|
  {
    hide Unlines, NewlineAt;
    var n := NewlineAt(text);
    if n < |text| {
      LinesCutTheText(text[n + 1..]);
      UnlinesPush(text[..n], Lines(text[n + 1..]), Rest(text[n + 1..]));
      SplitAtNewline(text, n);
    } else {
      NoLines(text);
    }
  }

  lemma {:induction false} NoLines(text: string)
    ensures Unlines([]) + text == text
  {
  }

  lemma {:induction false} SplitAtNewline(text: string, n: nat)
    requires n < |text| && text[n] == '\n'
    ensures text == text[..n] + ("\n" + text[n + 1..])
  {
  }

  /** Framing folds the step over the finished lines and keeps what follows them. */
  lemma {:induction false} FrameFoldsLines<S, O>(text: string, state: S, step: (S, string) -> (S, O))
    ensures Frame(text, state, step).rest == Rest(text)
    ensures (Frame(text, state, step).state, Frame(text, state, step).outputs) == Fold(Lines(text), state, step)
    decreases |text|
  {
    var n := NewlineAt(text);
    if n < |text| {
      FrameFoldsLines(text[n + 1..], step(state, TrimEndCr(text[..n])).0, step);
      assert Lines(text)[1..] == Lines(text[n + 1..]);
    }
  }

  // ----- Independence of chunk boundaries -----

  /** A framing that continues one whose outputs so far are given. */
  function After<S, O>(outputs: seq<O>, later: Framed<S, O>): Framed<S, O>
  {
    Framed(outputs + later.outputs, later.rest, later.state)
  }

  lemma {:induction false} AfterNothing<S, O>(later: Framed<S, O>)
    ensures After([], later) == later
  {
  }

  lemma {:induction false} AfterAfter<S, O>(a: seq<O>, b: seq<O>, later: Framed<S, O>)
    ensures After(a, After(b, later)) == After(a + b, later)
  {
  }

  lemma {:induction false} FrameOneLine<S, O>(text: string, state: S, step: (S, string) -> (S, O))
    requires NewlineAt(text) < |text|
    ensures var n := NewlineAt(text);
            var (next, output) := step(state, TrimEndCr(text[..n]));
            Frame(text, state, step) == After([output], Frame(text[n + 1..], next, step))
  {
  }

  lemma {:induction false} NewlineAtAppend(a: string, b: string)
    requires NewlineAt(a) < |a|
    ensures NewlineAt(a + b) == NewlineAt(a)
  {
    if a[0] != '\n' {
      NewlineAtAppend(a[1..], b);
      assert (a + b)[1..] == a[1..] + b;
    }
  }

  /** Framing one chunk and then another equals framing both at once. */
  lemma {:induction false} FrameAppend<S, O>(a: string, b: string, state: S, step: (S, string) -> (S, O))
    ensures var first := Frame(a, state, step);
            Frame(a + b, state, step) == After(first.outputs, Frame(first.rest + b, first.state, step))
    decreases |a|
  {
    var n := NewlineAt(a);
    if n == |a| {
      AfterNothing(Frame(a + b, state, step));
    } else {
      NewlineAtAppend(a, b);
      assert (a + b)[..n] == a[..n] && (a + b)[n + 1..] == a[n + 1..] + b;
      var (next, output) := step(state, TrimEndCr(a[..n]));
      FrameOneLine(a, state, step);
      FrameOneLine(a + b, state, step);
      FrameAppend(a[n + 1..], b, next, step);
      hide Frame;
      var first := Frame(a[n + 1..], next, step);
      AfterAfter([output], first.outputs, Frame(first.rest + b, first.state, step));
    }
  }

  function Concat(parts: seq<string>): string
  {
    if parts == [] then [] else parts[0] + Concat(parts[1..])
  }

  lemma {:induction false} Reassociate(a: string, b: string, c: string)
    ensures a + b + c == a + (b + c)
  {
  }

  /** The chunks pushed one after another. */
  function PushEach<S, O>(chunks: seq<string>, pending: string, state: S, step: (S, string) -> (S, O)): Framed<S, O>
  {
    if chunks == [] then Framed([], pending, state)
    else
      var first := Frame(pending + chunks[0], state, step);
      After(first.outputs, PushEach(chunks[1..], first.rest, first.state, step))
  }

  lemma {:induction false} ChunksDoNotMatter<S, O>(
    chunks: seq<string>, pending: string, state: S, step: (S, string) -> (S, O))
    requires IsOneLine(pending)
    ensures PushEach(chunks, pending, state, step) == Frame(pending + Concat(chunks), state, step)
  {
    if chunks == [] {
      assert pending + [] == pending;
    } else {
      var first := Frame(pending + chunks[0], state, step);
      FrameFoldsLines(pending + chunks[0], state, step);
      LinesCutTheText(pending + chunks[0]);
      ChunksDoNotMatter(chunks[1..], first.rest, first.state, step);
      FrameAppend(pending + chunks[0], Concat(chunks[1..]), state, step);
      Reassociate(pending, chunks[0], Concat(chunks[1..]));
      hide Frame, Rest;
    }
  }

  function NonEmpty(outputs: seq<string>): seq<string>
  {
    if outputs == [] then [] else (if outputs[0] == "" then [] else [outputs[0]]) + NonEmpty(outputs[1..])
  }

  lemma {:induction false} NonEmptyAppend(a: seq<string>, b: seq<string>)
    ensures NonEmpty(a + b) == NonEmpty(a) + NonEmpty(b)
  {
    if a == [] {
      assert a + b == b;
    } else {
      NonEmptyAppend(a[1..], b);
      assert (a + b)[1..] == a[1..] + b;
      var first, later, last := if a[0] == "" then [] else [a[0]], NonEmpty(a[1..]), NonEmpty(b);
      assert first + (later + last) == (first + later) + last;
    }
  }

  lemma {:induction false} ConcatAppend(a: seq<string>, b: seq<string>)
    ensures Concat(a + b) == Concat(a) + Concat(b)
  {
    if a == [] {
      assert a + b == b;
    } else {
      ConcatAppend(a[1..], b);
      assert (a + b)[1..] == a[1..] + b;
      Reassociate(a[0], Concat(a[1..]), Concat(b));
    }
  }

  /** `S` is everything the line step keeps; the step itself is any function. */
  class ClaudeLiveOutputNormalizer<S> {
    const normalizeLine: (S, string) -> (S, string)
    var pendingLine: string
    var inner: S

    constructor (inner: S, normalizeLine: (S, string) -> (S, string))
      ensures this.inner == inner && this.normalizeLine == normalizeLine && pendingLine == ""
    {
      this.inner, this.normalizeLine, pendingLine := inner, normalizeLine, "";
    }

    method PushChunks(chunk: string) returns (output: seq<string>)
      modifies this
      ensures var framed := Frame(old(pendingLine) + chunk, old(inner), normalizeLine);
              output == NonEmpty(framed.outputs) && pendingLine == framed.rest && inner == framed.state
    {
      pendingLine := pendingLine + chunk;
      output := [];
      ghost var framed := Frame(pendingLine, inner, normalizeLine);
      ghost var outputs: seq<string> := [];
      AfterNothing(framed);
      var newline := NewlineAt(pendingLine);
      while newline < |pendingLine|
        invariant newline == NewlineAt(pendingLine)
        invariant output == NonEmpty(outputs)
        invariant framed == After(outputs, Frame(pendingLine, inner, normalizeLine))
        decreases |pendingLine|
      {
        FrameOneLine(pendingLine, inner, normalizeLine);
        var line := TrimEndCr(pendingLine[..newline]);
        pendingLine := pendingLine[newline + 1..];
        var (next, text) := normalizeLine(inner, line);
        inner := next;
        if text != "" {
          output := output + [text];
        }
        NonEmptyAppend(outputs, [text]);
        AfterAfter(outputs, [text], Frame(pendingLine, inner, normalizeLine));
        outputs := outputs + [text];
        newline := NewlineAt(pendingLine);
      }
      assert outputs + [] == outputs;
    }

    method Finish() returns (output: string)
      modifies this
      ensures pendingLine == ""
      ensures if old(pendingLine) == "" then output == "" && inner == old(inner)
              else (inner, output) == normalizeLine(old(inner), TrimEndCr(old(pendingLine)))
    {
      output := "";
      if pendingLine != "" {
        var line := pendingLine;
        pendingLine := "";
        var (next, text) := normalizeLine(inner, TrimEndCr(line));
        inner := next;
        if text != "" {
          output := output + text;
        }
        assert output == text;
      }
    }
  }

  class GeminiLiveOutputNormalizer<S> {
    const normalizeLine: (S, string) -> (S, string)
    var pendingLine: string
    var inner: S

    constructor (inner: S, normalizeLine: (S, string) -> (S, string))
      ensures this.inner == inner && this.normalizeLine == normalizeLine && pendingLine == ""
    {
      this.inner, this.normalizeLine, pendingLine := inner, normalizeLine, "";
    }

    method Push(chunk: string) returns (output: string)
      modifies this
      ensures var framed := Frame(old(pendingLine) + chunk, old(inner), normalizeLine);
              output == Concat(framed.outputs) && pendingLine == framed.rest && inner == framed.state
    {
      pendingLine := pendingLine + chunk;
      output := "";
      ghost var framed := Frame(pendingLine, inner, normalizeLine);
      ghost var outputs: seq<string> := [];
      AfterNothing(framed);
      var newline := NewlineAt(pendingLine);
      while newline < |pendingLine|
        invariant newline == NewlineAt(pendingLine)
        invariant output == Concat(outputs)
        invariant framed == After(outputs, Frame(pendingLine, inner, normalizeLine))
        decreases |pendingLine|
      {
        FrameOneLine(pendingLine, inner, normalizeLine);
        var line := TrimEndCr(pendingLine[..newline]);
        pendingLine := pendingLine[newline + 1..];
        var (next, text) := normalizeLine(inner, line);
        inner := next;
        output := output + text;
        ConcatAppend(outputs, [text]);
        assert Concat([text]) == text;
        AfterAfter(outputs, [text], Frame(pendingLine, inner, normalizeLine));
        outputs := outputs + [text];
        newline := NewlineAt(pendingLine);
      }
      assert outputs + [] == outputs;
    }

    method Finish() returns (output: string)
      modifies this
      ensures pendingLine == ""
      ensures if old(pendingLine) == "" then output == "" && inner == old(inner)
              else (inner, output) == normalizeLine(old(inner), TrimEndCr(old(pendingLine)))
    {
      if pendingLine == "" {
        return "";
      }
      var line := pendingLine;
      pendingLine := "";
      var (next, text) := normalizeLine(inner, TrimEndCr(line));
      inner := next;
      output := text;
    }
  }

  /** Pushing two chunks leaves either normaliser as pushing their concatenation does. */
  lemma {:induction false} TwoPushesAreOne<S>(
    pending: string, a: string, b: string, state: S, step: (S, string) -> (S, string))
    ensures var first := Frame(pending + a, state, step);
            var second := Frame(first.rest + b, first.state, step);
            var once := Frame(pending + (a + b), state, step);
            && NonEmpty(once.outputs) == NonEmpty(first.outputs) + NonEmpty(second.outputs)
            && Concat(once.outputs) == Concat(first.outputs) + Concat(second.outputs)
            && once.rest == second.rest && once.state == second.state
  {
    FrameAppend(pending + a, b, state, step);
    assert pending + (a + b) == pending + a + b;
    var first := Frame(pending + a, state, step);
    var second := Frame(first.rest + b, first.state, step);
    NonEmptyAppend(first.outputs, second.outputs);
    ConcatAppend(first.outputs, second.outputs);
  }
}
