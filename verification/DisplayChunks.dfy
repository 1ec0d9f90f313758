/** Cutting streamed text into display chunks. */
module DisplayChunks {
  import opened Text
  import opened LineFraming

  const DIRECT_AI_DISPLAY_CHUNK_CHARS: nat := 36

  /** The pieces that end with a newline, and the piece after the last one. */
  function Segments(text: string): seq<string>
    decreases |text|
  {
    if text == [] then []
    else
      var n := NewlineAt(text);
      if n == |text| then [text] else [text[..n + 1]] + Segments(text[n + 1..])
  }

  /** Pieces of `target` characters, the last one possibly shorter. */
  function Pieces(text: string, target: nat): seq<string>
    requires target > 0
    decreases |text|
  {
    if text == [] then []
    else if |text| < target then [text]
    else [text[..target]] + Pieces(text[target..], target)
  }

  function IfAny(text: string): seq<string>
  {
    if text == [] then [] else [text]
  }

  /** What the remaining segments produce when `current` is being filled. */
  function Chunks(segments: seq<string>, current: string): seq<string>
    decreases |segments|
  {
    if segments == [] then IfAny(current)
    else
      var segment := segments[0];
      var isFull := ByteLen(current) + ByteLen(segment) > DIRECT_AI_DISPLAY_CHUNK_CHARS && current != [];
      var flushed, open := if isFull then [current] else [], if isFull then [] else current;
      if ByteLen(segment) > DIRECT_AI_DISPLAY_CHUNK_CHARS * 2
      then flushed + (Pieces(segment, DIRECT_AI_DISPLAY_CHUNK_CHARS) + Chunks(segments[1..], open))
      else flushed + Chunks(segments[1..], open + segment)
  }

  function ChunksOf(text: string): seq<string>
  {
    Chunks(Segments(text), [])
  }

  // ----- Lossless and bounded -----

  lemma {:induction false} SegmentsAreLossless(text: string)
    ensures Concat(Segments(text)) == text
    ensures forall k | 0 <= k < |Segments(text)| :: Segments(text)[k] != []
    decreases |text|
  {
    if text != [] {
      hide Concat, NewlineAt;
      var n := NewlineAt(text);
      if n < |text| {
        SegmentsAreLossless(text[n + 1..]);
        ConcatPush(text[..n + 1], Segments(text[n + 1..]));
        CutAt(text, n + 1);
      } else {
        ConcatPush(text, []);
        NothingJoined();
        assert text + [] == text;
      }
    } else {
      NothingJoined();
    }
  }

  lemma {:induction false} ConcatPush(first: string, rest: seq<string>)
    ensures Concat([first] + rest) == first + Concat(rest)
    ensures [first] + [] == [first]
  {
    assert ([first] + rest)[1..] == rest;
  }

  lemma {:induction false} NothingJoined()
    ensures Concat([]) == []
  {
  }

  lemma {:induction false} CutAt(text: string, n: nat)
    requires n <= |text|
    ensures text[..n] + text[n..] == text
  {
  }

  /** No chunk is empty, and each has at most 72 bytes or at most 36 characters. */
  ghost predicate IsShown(chunk: string)
  {
    chunk != [] && (ByteLen(chunk) <= DIRECT_AI_DISPLAY_CHUNK_CHARS * 2 || |chunk| <= DIRECT_AI_DISPLAY_CHUNK_CHARS)
  }

  ghost predicate AllShown(chunks: seq<string>)
  {
    forall k | 0 <= k < |chunks| :: IsShown(chunks[k])
  }

  lemma {:induction false} PiecesAreLossless(text: string)
    ensures Concat(Pieces(text, DIRECT_AI_DISPLAY_CHUNK_CHARS)) == text
    ensures AllShown(Pieces(text, DIRECT_AI_DISPLAY_CHUNK_CHARS))
    decreases |text|
  {
    var target := DIRECT_AI_DISPLAY_CHUNK_CHARS;
    if text != [] {
      if |text| < target {
        assert [text][1..] == [];
        assert text + [] == text;
      } else {
        PiecesAreLossless(text[target..]);
        assert Pieces(text, target)[1..] == Pieces(text[target..], target);
        assert text == text[..target] + text[target..];
      }
    }
  }

  lemma {:induction false} ChunksAreLossless(segments: seq<string>, current: string)
    requires ByteLen(current) <= DIRECT_AI_DISPLAY_CHUNK_CHARS * 2
    requires forall k | 0 <= k < |segments| :: segments[k] != []
    ensures Concat(Chunks(segments, current)) == current + Concat(segments)
    ensures AllShown(Chunks(segments, current))
    decreases |segments|
  {
    hide Pieces, ByteLen, Concat;
    if segments == [] {
      Flush(current, current != []);
    } else {
      var segment, rest := segments[0], segments[1..];
      assert segments == [segment] + rest;
      ConcatPush(segment, rest);
      ByteLenBounds(segment);
      ByteLenBounds(current);
      var isFull := ByteLen(current) + ByteLen(segment) > DIRECT_AI_DISPLAY_CHUNK_CHARS && current != [];
      var flushed, open := if isFull then [current] else [], if isFull then [] else current;
      ByteLenBounds(open);
      Flush(current, isFull);
      if ByteLen(segment) > DIRECT_AI_DISPLAY_CHUNK_CHARS * 2 {
        PiecesAreLossless(segment);
        ChunksAreLossless(rest, open);
        ConcatAll(flushed, Pieces(segment, DIRECT_AI_DISPLAY_CHUNK_CHARS), Chunks(rest, open), open, Concat(rest));
      } else {
        ByteLenAppend(open, segment);
        ChunksAreLossless(rest, open + segment);
        ConcatTwo(flushed, Chunks(rest, open + segment), open, segment, Concat(rest));
      }
    }
  }

  /** What is flushed and what stays open are the current text. */
  lemma {:induction false} Flush(current: string, isFull: bool)
    ensures Concat(if isFull then [current] else []) + (if isFull then [] else current) == current
    ensures current == [] || isFull ==> Concat(IfAny(current)) == current + Concat([])
  {
    assert [current][1..] == [];
  }

  lemma {:induction false} ConcatAll(
    flushed: seq<string>, pieces: seq<string>, later: seq<string>, open: string, rest: string)
    requires open == [] && Concat(later) == open + rest
    ensures Concat(flushed + (pieces + later)) == (Concat(flushed) + open) + (Concat(pieces) + rest)
  {
    hide Concat;
    ConcatAppend(flushed, pieces + later);
    ConcatAppend(pieces, later);
  }

  lemma {:induction false} ConcatTwo(
    flushed: seq<string>, later: seq<string>, open: string, segment: string, rest: string)
    requires Concat(later) == (open + segment) + rest
    ensures Concat(flushed + later) == (Concat(flushed) + open) + (segment + rest)
  {
    hide Concat;
    ConcatAppend(flushed, later);
    Reassociate(open, segment, rest);
    Reassociate(Concat(flushed), open, segment + rest);
  }

  /** The chunks are the text, whatever it is, and every chunk can be shown. */
  lemma {:induction false} DisplayChunksAreLossless(text: string)
    ensures Concat(ChunksOf(text)) == text
    ensures AllShown(ChunksOf(text))
  {
    SegmentsAreLossless(text);
    ChunksAreLossless(Segments(text), []);
    assert [] + Concat(Segments(text)) == text;
  }

  // ----- How the text is cut -----

  /** A newline only ends a segment, and ends all but the last. */
  lemma {:induction false} SegmentsAreLines(text: string)
    ensures Concat(Segments(text)) == text
    ensures forall k | 0 <= k < |Segments(text)| ::
              Segments(text)[k] != [] && IsOneLine(Segments(text)[k][..|Segments(text)[k]| - 1])
    ensures forall k | 0 <= k < |Segments(text)| - 1 :: Segments(text)[k][|Segments(text)[k]| - 1] == '\n'
    decreases |text|
  {
    SegmentsAreLossless(text);
    if text != [] && NewlineAt(text) < |text| {
      SegmentsAreLines(text[NewlineAt(text) + 1..]);
    }
    hide NewlineAt, Concat;
  }

  /** Pieces of 36 characters, of which only the last may be shorter. */
  ghost predicate ArePieces(pieces: seq<string>, line: string)
  {
    && Concat(pieces) == line && pieces != []
    && (forall k | 0 <= k < |pieces| - 1 :: |pieces[k]| == 36)
    && 0 < |pieces[|pieces| - 1]| <= 36
  }

  /** As many of the first lines as fit 36 bytes, or the first one if that is longer. */
  ghost predicate IsBlock(lines: seq<string>, count: nat, chunk: string)
  {
    && 0 < count <= |lines| && chunk == Concat(lines[..count])
    && (count > 1 ==> ByteLen(chunk) <= 36)
    && (count < |lines| ==> ByteLen(chunk) + ByteLen(lines[count]) > 36)
  }

  /** Lines of more than 72 bytes are cut into pieces of their own, the others gathered into blocks. */
  ghost predicate AreCut(chunks: seq<string>, lines: seq<string>)
    decreases |lines|
  {
    if lines == [] then chunks == []
    else if ByteLen(lines[0]) > 72 then
      exists m :: 0 < m <= |chunks| && ArePieces(chunks[..m], lines[0]) && AreCut(chunks[m..], lines[1..])
    else
      chunks != [] && exists n: nat :: IsBlock(lines, n, chunks[0]) && AreCut(chunks[1..], lines[n..])
  }

  lemma {:induction false} PiecesArePieces(line: string)
    requires line != []
    ensures ArePieces(Pieces(line, 36), line)
    decreases |line|
  {
    PiecesAreLossless(line);
    if |line| > 36 {
      PiecesArePieces(line[36..]);
      assert Pieces(line, 36) == [line[..36]] + Pieces(line[36..], 36);
    } else if |line| == 36 {
      assert Pieces(line[36..], 36) == [];
    }
    hide Concat;
  }

  lemma {:induction false} CutLongLine(pieces: seq<string>, later: seq<string>, line: string, rest: seq<string>)
    requires ByteLen(line) > 72 && ArePieces(pieces, line) && AreCut(later, rest)
    ensures AreCut(pieces + later, [line] + rest)
  {
    hide ByteLen, ArePieces;
    assert pieces != [] by {
      PiecesAreSome(pieces, line);
    }
    var chunks := pieces + later;
    assert chunks[..|pieces|] == pieces && chunks[|pieces|..] == later && ([line] + rest)[1..] == rest;
  }

  lemma {:induction false} PiecesAreSome(pieces: seq<string>, line: string)
    requires ArePieces(pieces, line)
    ensures pieces != []
  {
  }

  lemma {:induction false} CutBlock(chunk: string, later: seq<string>, taken: seq<string>, rest: seq<string>)
    requires taken != [] && ByteLen(taken[0]) <= 72 && chunk == Concat(taken)
    requires |taken| > 1 ==> ByteLen(chunk) <= 36
    requires rest != [] ==> ByteLen(chunk) + ByteLen(rest[0]) > 36
    requires AreCut(later, rest)
    ensures AreCut([chunk] + later, taken + rest)
  {
    hide ByteLen, Concat;
    var lines, chunks := taken + rest, [chunk] + later;
    assert lines[..|taken|] == taken && lines[|taken|..] == rest && chunks[1..] == later;
    assert rest != [] ==> lines[|taken|] == rest[0];
    assert IsBlock(lines, |taken|, chunks[0]);
  }

  /** The lines taken so far make up the current text, and fit. */
  ghost predicate AreTaken(taken: seq<string>, current: string)
  {
    && current == Concat(taken) && (taken != [] <==> current != [])
    && (taken != [] ==> ByteLen(taken[0]) <= 72) && (|taken| > 1 ==> ByteLen(current) <= 36)
  }

  lemma {:induction false} TakenGrows(taken: seq<string>, current: string, line: string)
    requires AreTaken(taken, current) && line != [] && ByteLen(line) <= 72
    requires current != [] ==> ByteLen(current) + ByteLen(line) <= 36
    ensures AreTaken(taken + [line], current + line)
  {
    ConcatAppend(taken, [line]);
    ConcatPush(line, []);
    NothingJoined();
    ByteLenAppend(current, line);
    hide ByteLen, Concat;
    assert line + [] == line;
  }

  lemma {:induction false} FullIsFlushed(segments: seq<string>, current: string)
    requires segments != [] && current != [] && ByteLen(current) + ByteLen(segments[0]) > 36
    ensures Chunks(segments, current) == [current] + Chunks(segments, [])
  {
    hide ByteLen, Pieces;
    var rest := segments[1..];
    assert [] + Chunks(rest, [] + segments[0]) == Chunks(rest, [] + segments[0]);
    assert forall pieces: seq<string> :: [] + (pieces + Chunks(rest, [])) == pieces + Chunks(rest, []);
  }

  lemma {:induction false} ChunksAreCut(segments: seq<string>, current: string, taken: seq<string>)
    requires AreTaken(taken, current) && forall k | 0 <= k < |segments| :: segments[k] != []
    ensures AreCut(Chunks(segments, current), taken + segments)
    decreases |segments|, |taken|
  {
    hide AreCut, ByteLen, Concat, Pieces, Chunks;
    NothingIsTaken();
    if segments == [] {
      LastChunk(current);
      NothingIsCut();
      if taken != [] {
        CutBlock(current, [], taken, []);
        assert [current] + [] == [current];
      }
      assert taken + [] == taken;
    } else {
      var line, rest := segments[0], segments[1..];
      assert segments == [line] + rest;
      if current != [] && ByteLen(current) + ByteLen(line) > 36 {
        FullIsFlushed(segments, current);
        ChunksAreCut(segments, [], []);
        assert [] + segments == segments;
        CutBlock(current, Chunks(segments, []), taken, segments);
      } else {
        FirstIsAdded(segments, current);
        if ByteLen(line) > 72 {
          assert current == [] && taken == [];
          PiecesArePieces(line);
          ChunksAreCut(rest, [], []);
          assert [] + rest == rest && [] + segments == segments;
          CutLongLine(Pieces(line, 36), Chunks(rest, []), line, rest);
        } else {
          TakenGrows(taken, current, line);
          ChunksAreCut(rest, current + line, taken + [line]);
          assert taken + [line] + rest == taken + segments;
        }
      }
    }
  }

  lemma {:induction false} NothingIsTaken()
    ensures AreTaken([], [])
  {
  }

  lemma {:induction false} NothingIsCut()
    ensures AreCut([], [])
  {
  }

  lemma {:induction false} LastChunk(current: string)
    ensures Chunks([], current) == if current == [] then [] else [current]
  {
  }

  lemma {:induction false} FirstIsAdded(segments: seq<string>, current: string)
    requires segments != [] && (current == [] || ByteLen(current) + ByteLen(segments[0]) <= 36)
    ensures var line, rest := segments[0], segments[1..];
            Chunks(segments, current) ==
            if ByteLen(line) > 72 then Pieces(line, 36) + Chunks(rest, current) else Chunks(rest, current + line)
  {
    hide ByteLen, Pieces;
    var line, rest := segments[0], segments[1..];
    assert [] + Chunks(rest, current + line) == Chunks(rest, current + line);
    assert [] + (Pieces(line, 36) + Chunks(rest, current)) == Pieces(line, 36) + Chunks(rest, current);
  }

  /** The chunks are blocks of whole lines, as large as 36 bytes allow, and pieces of the lines over 72 bytes. */
  lemma {:induction false} DisplayChunksAreBlocks(text: string)
    ensures AreCut(ChunksOf(text), Segments(text))
  {
    hide AreCut, Segments, Chunks;
    SegmentsAreLossless(text);
    NothingIsTaken();
    ChunksAreCut(Segments(text), [], []);
    assert [] + Segments(text) == Segments(text);
  }

  // ----- The loops -----

  method SplitOnCharBoundaries(text: string, targetChars: nat) returns (chunks: seq<string>)
    requires targetChars > 0
    ensures chunks == Pieces(text, targetChars)
  {
    chunks := [];
    var current := "";
    ghost var from := 0;
    for i := 0 to |text|
      invariant from <= i && current == text[from..i] && |current| < targetChars
      invariant chunks + Pieces(text[from..], targetChars) == Pieces(text, targetChars)
    {
      current := current + [text[i]];
      assert current == text[from..i + 1];
      if |current| >= targetChars {
        assert text[from..][..targetChars] == current && text[from..][targetChars..] == text[i + 1..];
        AppendPiece(chunks, current, Pieces(text[i + 1..], targetChars));
        chunks := chunks + [current];
        current := "";
        from := i + 1;
      }
    }
    assert text[from..] == current;
    if current != "" {
      chunks := chunks + [current];
    }
  }

  lemma {:induction false} AppendPiece(chunks: seq<string>, piece: string, rest: seq<string>)
    ensures chunks + ([piece] + rest) == chunks + [piece] + rest
  {
  }

  lemma {:induction false} AppendPieces(chunks: seq<string>, pieces: seq<string>, rest: seq<string>)
    ensures chunks + (pieces + rest) == chunks + pieces + rest
  {
  }

  method DirectAiDisplayChunks(text: string) returns (chunks: seq<string>)
    ensures chunks == ChunksOf(text)
    ensures Concat(chunks) == text && AllShown(chunks)
  {
    DisplayChunksAreLossless(text);
    var segments := Segments(text);
    chunks := [];
    var current := "";
    for i := 0 to |segments|
      invariant chunks + Chunks(segments[i..], current) == ChunksOf(text)
    {
      var segment := segments[i];
      assert segments[i..][1..] == segments[i + 1..];
      chunks, current := AddSegment(segment, segments[i + 1..], chunks, current);
    }
    if current != "" {
      chunks := chunks + [current];
    }
  }

  /** The body of the chunking loop; `rest` lists the segments still to come. */
  method AddSegment(segment: string, ghost rest: seq<string>, chunks: seq<string>, current: string)
    returns (next: seq<string>, open: string)
    ensures next + Chunks(rest, open) == chunks + Chunks([segment] + rest, current)
  {
    assert ([segment] + rest)[1..] == rest;
    next, open := chunks, current;
    if ByteLen(current) + ByteLen(segment) > DIRECT_AI_DISPLAY_CHUNK_CHARS && current != "" {
      next := next + [open];
      open := "";
    }
    ghost var flushed := if open == current then [] else [current];
    if ByteLen(segment) > DIRECT_AI_DISPLAY_CHUNK_CHARS * 2 {
      var pieces := SplitOnCharBoundaries(segment, DIRECT_AI_DISPLAY_CHUNK_CHARS);
      AppendPieces(chunks, flushed, pieces + Chunks(rest, open));
      AppendPieces(next, pieces, Chunks(rest, open));
      next := next + pieces;
    } else {
      AppendPieces(chunks, flushed, Chunks(rest, open + segment));
      open := open + segment;
    }
  }
}
