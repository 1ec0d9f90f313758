/** A transcript on which resuming loses a message that a rescan counts. */
module ClaudeIndexExample {
  import opened Wrappers
  import opened JsonlScan
  import opened ClaudeSessions
  import opened ClaudeIndex

  /** A user message of the session, with or without the working directory. */
  function UserLine(id: string, cwd: Option<string>): Entry
  {
    Entry(false, Some(id), cwd, None, None, Some("user"), "hello", true, None)
  }

  const KEPT := UserLine("kept", Some("/home"))
  const LOST := UserLine("lost", None)
  const FOUND := UserLine("lost", Some("/home"))

  const FIRST_BYTES: seq<Byte> := [1, NEWLINE] + [2, NEWLINE]
  const ALL_BYTES: seq<Byte> := FIRST_BYTES + [3, NEWLINE]

  const FIRST_LOOK := Seen(None, 4, None, FIRST_BYTES, Luck(true, 2), None)
  const SECOND_LOOK := Seen(None, 6, None, ALL_BYTES, Luck(true, 1), None)

  /** Two sessions, of which the second has a message but no working directory until the line that arrives later. */
  predicate ReadsThreeLines(reading: Reading)
  {
    reading.parse([1]) == Some(KEPT) && reading.parse([2]) == Some(LOST) && reading.parse([3]) == Some(FOUND)
  }

  /** The index then counts one message of the second session where there are two. */
  lemma {:induction false} OtherSessionIsUndercounted(reading: Reading)
    requires ReadsThreeLines(reading)
    ensures IsGrown(FIRST_LOOK, SECOND_LOOK)
    ensures var stored := Synced(None, FIRST_LOOK, reading).value;
            var after := Synced(Some(stored), SECOND_LOOK, reading).value;
            && after.scanOffset == 6
            && ShownIn(after.records, "lost") == Some(Shown("/home", 1, None))
            && ShownIn(Rescanned(LinesBefore(ALL_BYTES, 6, reading), reading.summarize, None), "lost")
                 == Some(Shown("/home", 2, None))
  {
    hide Scanned, LinesBefore, Rescanned, Gathered, Resumed, KEPT, LOST, FOUND, UserLine, Folded, FinishClaudeBuilders;
    assert ALL_BYTES[..4] == FIRST_BYTES && ALL_BYTES[..6] == ALL_BYTES;
    ScansOfTheExample(reading);
    LinesOfTheExample(reading);
    GatheredOfTheExample();
    var stored, earlier := FirstLook(FIRST_LOOK, reading);
    assert stored.scanOffset == 4 && earlier == [KEPT, LOST];
    RescanShows(earlier, "kept", reading.summarize, None);
    RescanShows(earlier, "lost", reading.summarize, None);
    RescanShows([KEPT, LOST, FOUND], "lost", reading.summarize, None);
    assert "kept" in stored.records && "lost" !in stored.records;
    assert CanResume(stored, SECOND_LOOK) && !SourceMatches(stored, SECOND_LOOK);
    ScannedIsResumed(stored, SECOND_LOOK, reading);
    ResumeShows(stored.records, [FOUND], "lost", reading.summarize, None);
  }

  lemma {:induction false} ScansOfTheExample(reading: Reading)
    requires ReadsThreeLines(reading)
    ensures Scanned(FIRST_BYTES, 0, Luck(true, 2), reading.parse) == ([KEPT, LOST], 4)
    ensures Scanned(ALL_BYTES, 4, Luck(true, 1), reading.parse) == ([FOUND], 6)
  {
    hide ScanLines, KEPT, LOST, FOUND;
    ScanOneLine(1, [2, NEWLINE], 0, 2, reading.parse);
    ScanOneLine(2, [], 2, 1, reading.parse);
    ScanOneLine(3, [], 4, 1, reading.parse);
    NothingToScan([], 4, 0, reading.parse);
    NothingToScan([], 6, 0, reading.parse);
    assert FIRST_BYTES[0..] == FIRST_BYTES && [2, NEWLINE] + [] == [2, NEWLINE];
    assert ALL_BYTES[4..] == [3, NEWLINE] + [];
    assert [KEPT] + ([LOST] + []) == [KEPT, LOST] && [FOUND] + [] == [FOUND];
  }

  lemma {:induction false} ScanOneLine<V>(
    line: Byte, rest: seq<Byte>, offset: nat, lines: nat, parse: seq<Byte> -> Option<V>)
    requires line !in {NEWLINE, CARRIAGE_RETURN} && lines > 0 && parse([line]).Some?
    ensures var later := ScanLines(rest, offset + 2, lines - 1, parse);
            ScanLines([line, NEWLINE] + rest, offset, lines, parse) == ([parse([line]).value] + later.0, later.1)
  {
    var text := [line, NEWLINE] + rest;
    assert NewlineIn(text[1..]) == 0 && NewlineIn(text) == 1;
    assert text[..1] == [line] && text[2..] == rest;
  }

  lemma {:induction false} LinesOfTheExample(reading: Reading)
    requires ReadsThreeLines(reading)
    ensures LinesBefore(FIRST_BYTES, 4, reading) == [KEPT, LOST]
    ensures LinesBefore(ALL_BYTES, 6, reading) == [KEPT, LOST, FOUND]
  {
    hide Scanned, LinesBefore, KEPT, LOST, FOUND;
    ScansOfTheExample(reading);
    NoLines(FIRST_BYTES, reading);
    LinesGrow(FIRST_BYTES, 0, Luck(true, 2), reading);
    LinesStay(FIRST_BYTES, ALL_BYTES, 4, reading);
    LinesGrow(ALL_BYTES, 4, Luck(true, 1), reading);
    assert [] + [KEPT, LOST] == [KEPT, LOST] && [KEPT, LOST] + [FOUND] == [KEPT, LOST, FOUND];
  }

  lemma {:induction false} GatheredPush(id: string, entries: seq<Entry>, entry: Entry)
    ensures var before := Gathered(id, entries);
            Gathered(id, entries + [entry]) == if SessionOf(entry) == Some(id) then Touch(before, entry) else before
  {
    assert (entries + [entry])[..|entries|] == entries;
    hide Touch, SessionOf;
  }

  lemma {:induction false} GatheredOfTheExample()
    ensures View(Gathered("kept", [KEPT, LOST])) == Some(Shown("/home", 1, None))
    ensures View(Gathered("lost", [KEPT, LOST])) == None
    ensures View(Gathered("lost", [FOUND])) == Some(Shown("/home", 1, None))
    ensures View(Gathered("lost", [KEPT, LOST, FOUND])) == Some(Shown("/home", 2, None))
  {
    assert [] + [KEPT] == [KEPT] && [KEPT] + [LOST] == [KEPT, LOST] && [] + [FOUND] == [FOUND];
    assert [KEPT, LOST] + [FOUND] == [KEPT, LOST, FOUND];
    NothingGathered("kept");
    NothingGathered("lost");
    hide Gathered;
    GatheredPush("kept", [], KEPT);
    GatheredPush("kept", [KEPT], LOST);
    GatheredPush("lost", [], KEPT);
    GatheredPush("lost", [KEPT], LOST);
    GatheredPush("lost", [KEPT, LOST], FOUND);
    GatheredPush("lost", [], FOUND);
  }

  lemma {:induction false} NothingGathered(id: string)
    ensures Gathered(id, []) == NewBuilder(id)
  {
  }
}
