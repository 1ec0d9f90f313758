/**
 Scanning an append-only file of JSON lines from a remembered offset. Only lines that
 end with a newline are visited, and the offset handed back lies right behind the last
 of them, so a line that is still being written is seen by a later scan.
 */
module JsonlScan {
  import opened Wrappers

  type Byte = bv8

  const NEWLINE: Byte := 10
  const CARRIAGE_RETURN: Byte := 13

  /** The position of the first newline, or the length if there is none. */
  function NewlineIn(bytes: seq<Byte>): (n: nat)
    ensures n <= |bytes|
    ensures n < |bytes| ==> bytes[n] == NEWLINE
  {
    if bytes == [] || bytes[0] == NEWLINE then 0 else 1 + NewlineIn(bytes[1..])
  }

  /** A line without its newline loses at most one carriage return. */
  function Strip(line: seq<Byte>): seq<Byte>
  {
    if line != [] && line[|line| - 1] == CARRIAGE_RETURN then line[..|line| - 1] else line
  }

  /** The newline-terminated records, stripped, in order. */
  function Records(bytes: seq<Byte>): seq<seq<Byte>>
    decreases |bytes|
  {
    var n := NewlineIn(bytes);
    if n == |bytes| then [] else [Strip(bytes[..n])] + Records(bytes[n + 1..])
  }

  /** The number of bytes that the first `count` records take. */
  function Extent(bytes: seq<Byte>, count: nat): (extent: nat)
    requires count <= |Records(bytes)|
    ensures extent <= |bytes|
    decreases count
  {
    if count == 0 then 0
    else
      var n := NewlineIn(bytes);
      n + 1 + Extent(bytes[n + 1..], count - 1)
  }

  /** The values visited: the records that parse. */
  function Visits<V>(records: seq<seq<Byte>>, parse: seq<Byte> -> Option<V>): seq<V>
  {
    if records == [] then []
    else FirstVisit(records[0], parse) + Visits(records[1..], parse)
  }

  /** Offset 0, or right behind a newline. */
  predicate IsBoundary(file: seq<Byte>, offset: nat)
  {
    offset <= |file| && (offset == 0 || file[offset - 1] == NEWLINE)
  }

  // ----- Cutting at a boundary -----

  lemma {:induction false} NewlineInAppend(a: seq<Byte>, b: seq<Byte>)
    requires NewlineIn(a) < |a|
    ensures NewlineIn(a + b) == NewlineIn(a)
  {
    if a[0] != NEWLINE {
      NewlineInAppend(a[1..], b);
      assert (a + b)[1..] == a[1..] + b;
    }
  }

  lemma {:induction false} BoundaryHasNewline(a: seq<Byte>)
    requires a != [] && a[|a| - 1] == NEWLINE
    ensures NewlineIn(a) < |a|
  {
    if a[0] != NEWLINE {
      BoundaryHasNewline(a[1..]);
    }
  }

  /** The records of a file cut at a boundary are those of its two parts. */
  lemma {:induction false} RecordsAppend(a: seq<Byte>, b: seq<Byte>)
    requires a == [] || a[|a| - 1] == NEWLINE
    ensures Records(a + b) == Records(a) + Records(b)
    decreases |a|
  {
    hide NewlineIn, Strip, Records;
    if a == [] {
      RecordsOfNothing();
      assert a + b == b;
    } else {
      BoundaryHasNewline(a);
      NewlineInAppend(a, b);
      var n := NewlineIn(a);
      CutAppend(a, b, n);
      RecordsAppend(a[n + 1..], b);
      RecordsStep(a);
      RecordsStep(a + b);
      AppendRecord(Strip(a[..n]), Records(a[n + 1..]), Records(b));
    }
  }

  lemma {:induction false} RecordsOfNothing()
    ensures Records([]) == []
  {
  }

  lemma {:induction false} RecordsStep(bytes: seq<Byte>)
    requires NewlineIn(bytes) < |bytes|
    ensures var n := NewlineIn(bytes);
            Records(bytes) == [Strip(bytes[..n])] + Records(bytes[n + 1..])
  {
    hide NewlineIn, Strip;
  }

  lemma {:induction false} CutAppend(a: seq<Byte>, b: seq<Byte>, n: nat)
    requires n < |a|
    ensures (a + b)[..n] == a[..n] && (a + b)[n + 1..] == a[n + 1..] + b
  {
  }

  lemma {:induction false} AppendRecord(record: seq<Byte>, a: seq<seq<Byte>>, b: seq<seq<Byte>>)
    ensures [record] + (a + b) == ([record] + a) + b
  {
  }

  lemma {:induction false} TakeSplit<T>(items: seq<T>, a: nat, b: nat)
    requires a + b <= |items|
    ensures items[..a + b] == items[..a] + items[a..][..b]
  {
  }

  lemma {:induction false} TakeOfAppend<T>(first: T, rest: seq<T>, count: nat)
    requires 0 < count <= |rest| + 1
    ensures ([first] + rest)[..count] == [first] + rest[..count - 1]
  {
  }

  lemma {:induction false} NewlineOfPrefix(bytes: seq<Byte>)
    requires NewlineIn(bytes) < |bytes|
    ensures NewlineIn(bytes[..NewlineIn(bytes) + 1]) == NewlineIn(bytes)
  {
    var n := NewlineIn(bytes);
    if bytes[0] != NEWLINE {
      NewlineOfPrefix(bytes[1..]);
      assert bytes[..n + 1][1..] == bytes[1..][..n];
    }
  }

  /** One step of `Records`, and the extent that goes with it. */
  lemma {:induction false} Unfold(bytes: seq<Byte>, count: nat)
    requires 0 < count <= |Records(bytes)|
    ensures NewlineIn(bytes) < |bytes|
    ensures Records(bytes) == [Strip(bytes[..NewlineIn(bytes)])] + Records(bytes[NewlineIn(bytes) + 1..])
    ensures count - 1 <= |Records(bytes[NewlineIn(bytes) + 1..])|
    ensures Extent(bytes, count) == NewlineIn(bytes) + 1 + Extent(bytes[NewlineIn(bytes) + 1..], count - 1)
  {
    RecordsEndWithNewlines(bytes);
    RecordsStep(bytes);
    hide NewlineIn, Strip, Records;
  }

  lemma {:induction false} RecordsEndWithNewlines(bytes: seq<Byte>)
    requires Records(bytes) != []
    ensures NewlineIn(bytes) < |bytes|
  {
    hide NewlineIn, Strip;
  }

  lemma {:induction false} RecordsOf(bytes: seq<Byte>, n: nat)
    requires NewlineIn(bytes) == n && |bytes| == n + 1
    ensures Records(bytes) == [Strip(bytes[..n])]
  {
    hide NewlineIn, Strip;
    assert Records(bytes[n + 1..]) == [];
  }

  lemma {:induction false} OneRecord(bytes: seq<Byte>)
    requires NewlineIn(bytes) < |bytes|
    ensures Records(bytes[..NewlineIn(bytes) + 1]) == [Strip(bytes[..NewlineIn(bytes)])]
  {
    hide NewlineIn, Strip, Records;
    var n := NewlineIn(bytes);
    NewlineOfPrefix(bytes);
    RecordsOf(bytes[..n + 1], n);
    assert bytes[..n + 1][..n] == bytes[..n];
  }

  /** The first `count` records fill the file up to their extent, which is a boundary. */
  lemma {:induction false} ExtentCutsRecords(bytes: seq<Byte>, count: nat)
    requires count <= |Records(bytes)|
    ensures IsBoundary(bytes, Extent(bytes, count))
    ensures Records(bytes[..Extent(bytes, count)]) == Records(bytes)[..count]
    decreases count, 1
  {
    if count == 0 {
      assert bytes[..0] == [];
      assert Records(bytes)[..0] == [];
    } else {
      ExtentCutsMore(bytes, count);
    }
  }

  lemma {:induction false} ExtentCutsMore(bytes: seq<Byte>, count: nat)
    requires 0 < count <= |Records(bytes)|
    ensures IsBoundary(bytes, Extent(bytes, count))
    ensures Records(bytes[..Extent(bytes, count)]) == Records(bytes)[..count]
    decreases count, 0
  {
    hide Records, NewlineIn, Strip, Extent;
    Unfold(bytes, count);
    var n := NewlineIn(bytes);
    var rest, record := bytes[n + 1..], Strip(bytes[..n]);
    ExtentCutsRecords(rest, count - 1);
    var extent := Extent(rest, count - 1);
    assert IsBoundary(bytes, n + 1 + extent);
    TakeOfAppend(record, Records(rest), count);
    OneRecord(bytes);
    TakeSplit(bytes, n + 1, extent);
    RecordsAppend(bytes[..n + 1], rest[..extent]);
  }

  lemma {:induction false} VisitsAppend<V>(a: seq<seq<Byte>>, b: seq<seq<Byte>>, parse: seq<Byte> -> Option<V>)
    ensures Visits(a + b, parse) == Visits(a, parse) + Visits(b, parse)
  {
    if a == [] {
      assert a + b == b;
    } else {
      hide FirstVisit;
      VisitsAppend(a[1..], b, parse);
      assert (a + b)[1..] == a[1..] + b;
      Reassociate(FirstVisit(a[0], parse), Visits(a[1..], parse), Visits(b, parse));
    }
  }

  // ----- The scan -----

  /** How one scan goes: whether the file opens, and after how many lines a read fails. */
  datatype Luck = Luck(opens: bool, lines: nat)

  function Rest(file: seq<Byte>, offset: nat): seq<Byte>
  {
    if offset <= |file| then file[offset..] else []
  }

  function FirstVisit<V>(record: seq<Byte>, parse: seq<Byte> -> Option<V>): seq<V>
  {
    match parse(record)
    case None => []
    case Some(value) => [value]
  }

  /** Visits at most `lines` of the finished lines; the offset moves behind each. */
  function ScanLines<V>(rest: seq<Byte>, offset: nat, lines: nat, parse: seq<Byte> -> Option<V>): (seq<V>, nat)
  {
    var n := NewlineIn(rest);
    if lines == 0 || n == |rest| then ([], offset)
    else
      var (later, end) := ScanLines(rest[n + 1..], offset + n + 1, lines - 1, parse);
      (FirstVisit(Strip(rest[..n]), parse) + later, end)
  }

  function Scanned<V>(file: seq<Byte>, offset: nat, luck: Luck, parse: seq<Byte> -> Option<V>): (seq<V>, nat)
  {
    ScanLines(Rest(file, offset), offset, if luck.opens then luck.lines else 0, parse)
  }

  lemma {:induction false} ScanStep<V>(
    visited: seq<V>, rest: seq<Byte>, offset: nat, lines: nat, parse: seq<Byte> -> Option<V>)
    requires lines > 0 && NewlineIn(rest) < |rest|
    ensures var n := NewlineIn(rest);
            var scan, later := ScanLines(rest, offset, lines, parse),
                  ScanLines(rest[n + 1..], offset + n + 1, lines - 1, parse);
            && visited + scan.0 == (visited + FirstVisit(Strip(rest[..n]), parse)) + later.0
            && scan.1 == later.1
  {
    var n := NewlineIn(rest);
    hide NewlineIn, Strip, FirstVisit;
    Reassociate(visited, FirstVisit(Strip(rest[..n]), parse),
        ScanLines(rest[n + 1..], offset + n + 1, lines - 1, parse).0);
  }

  lemma {:induction false} Reassociate<T>(a: seq<T>, b: seq<T>, c: seq<T>)
    ensures a + (b + c) == (a + b) + c
  {
  }

  method ForEachJsonLineFrom<V>(file: seq<Byte>, offset: nat, luck: Luck, parse: seq<Byte> -> Option<V>)
    returns (visited: seq<V>, committedOffset: nat)
    ensures (visited, committedOffset) == Scanned(file, offset, luck, parse)
  {
    hide NewlineIn, Strip, ScanLines, Rest;
    visited, committedOffset := [], offset;
    if !luck.opens {
      assert ScanLines(Rest(file, offset), offset, 0, parse) == ([], offset) by {
        NothingToScan(Rest(file, offset), offset, 0, parse);
      }
      return;
    }
    var rest, lines := Rest(file, offset), luck.lines;
    ghost var whole := ScanLines(rest, offset, lines, parse);
    assert visited + whole.0 == whole.0;
    while lines > 0 && NewlineIn(rest) < |rest|
      invariant whole.0 == visited + ScanLines(rest, committedOffset, lines, parse).0
      invariant whole.1 == ScanLines(rest, committedOffset, lines, parse).1
      decreases |rest|
    {
      ScanStep(visited, rest, committedOffset, lines, parse);
      var read := NewlineIn(rest) + 1;
      var value := parse(Strip(rest[..read - 1]));
      committedOffset := committedOffset + read;
      visited := visited + if value.Some? then [value.value] else [];
      rest := rest[read..];
      lines := lines - 1;
    }
    NothingToScan(rest, committedOffset, lines, parse);
    assert visited + [] == visited;
  }

  lemma {:induction false} NothingToScan<V>(rest: seq<Byte>, offset: nat, lines: nat, parse: seq<Byte> -> Option<V>)
    requires lines == 0 || NewlineIn(rest) == |rest|
    ensures ScanLines(rest, offset, lines, parse) == ([], offset)
  {
  }

  /** A scan visits the first records there are, and the offset moves by what they take. */
  lemma {:induction false} ScanVisitsRecords<V>(rest: seq<Byte>, offset: nat, lines: nat, parse: seq<Byte> -> Option<V>)
    returns (count: nat)
    ensures count <= |Records(rest)| && (lines >= |Records(rest)| ==> count == |Records(rest)|)
    ensures ScanLines(rest, offset, lines, parse)
          == (Visits(Records(rest)[..count], parse), offset + Extent(rest, count))
    decreases |rest|
  {
    hide NewlineIn, Strip, Records, Visits, Extent, FirstVisit;
    var n := NewlineIn(rest);
    if lines == 0 || n == |rest| {
      count := 0;
      NoVisits(rest, parse);
    } else {
      var others := rest[n + 1..];
      var more := ScanVisitsRecords(others, offset + n + 1, lines - 1, parse);
      count := more + 1;
      RecordsStep(rest);
      Unfold(rest, count);
      TakeOfAppend(Strip(rest[..n]), Records(others), count);
      VisitsStep(Strip(rest[..n]), Records(others)[..more], parse);
    }
  }

  lemma {:induction false} NoVisits<V>(bytes: seq<Byte>, parse: seq<Byte> -> Option<V>)
    ensures Visits(Records(bytes)[..0], parse) == [] && Extent(bytes, 0) == 0
    ensures NewlineIn(bytes) == |bytes| ==> Records(bytes) == []
  {
    hide NewlineIn;
  }

  lemma {:induction false} VisitsStep<V>(record: seq<Byte>, records: seq<seq<Byte>>, parse: seq<Byte> -> Option<V>)
    ensures Visits([record] + records, parse) == FirstVisit(record, parse) + Visits(records, parse)
  {
    hide FirstVisit;
    assert ([record] + records)[1..] == records;
  }

  // ----- Scans after appends -----

  /** Bytes arrive at the end of the file, then a scan resumes. */
  datatype Round = Round(appended: seq<Byte>, luck: Luck)

  datatype Progress<V> = Progress(file: seq<Byte>, offset: nat, visited: seq<V>)

  function Resume<V>(progress: Progress<V>, round: Round, parse: seq<Byte> -> Option<V>): Progress<V>
  {
    var file := progress.file + round.appended;
    var (visited, offset) := Scanned(file, progress.offset, round.luck, parse);
    Progress(file, offset, progress.visited + visited)
  }

  function ResumeAll<V>(progress: Progress<V>, rounds: seq<Round>, parse: seq<Byte> -> Option<V>): Progress<V>
  {
    if rounds == [] then progress
    else Resume(ResumeAll(progress, rounds[..|rounds| - 1], parse), rounds[|rounds| - 1], parse)
  }

  /** What has been visited is exactly what lies in front of the offset, and the offset is a boundary. */
  ghost predicate IsCaughtUp<V>(progress: Progress<V>, parse: seq<Byte> -> Option<V>)
  {
    && IsBoundary(progress.file, progress.offset)
    && progress.visited == Visits(Records(progress.file[..progress.offset]), parse)
  }

  /** A scan from one boundary ended at another and visited the records in between. */
  ghost predicate VisitedBetween<V>(file: seq<Byte>, offset: nat, scan: (seq<V>, nat), parse: seq<Byte> -> Option<V>)
  {
    && IsBoundary(file, offset)
    && IsBoundary(file, scan.1) && offset <= scan.1
    && Visits(Records(file[..scan.1]), parse) == Visits(Records(file[..offset]), parse) + scan.0
  }

  lemma {:induction false} ScanExtends<V>(file: seq<Byte>, offset: nat, luck: Luck, parse: seq<Byte> -> Option<V>)
    requires IsBoundary(file, offset)
    ensures VisitedBetween(file, offset, Scanned(file, offset, luck, parse), parse)
  {
    hide Records, Visits, Extent, ScanLines;
    var rest := file[offset..];
    var count := ScanVisitsRecords(rest, offset, if luck.opens then luck.lines else 0, parse);
    CutVisits(file, offset, count, parse);
  }

  lemma {:induction false} UndisturbedScanReachesAll<V>(
    file: seq<Byte>, offset: nat, luck: Luck, parse: seq<Byte> -> Option<V>)
    requires IsBoundary(file, offset) && luck.opens && luck.lines >= |file|
    ensures Scanned(file, offset, luck, parse).1 <= |file|
    ensures Records(file[..Scanned(file, offset, luck, parse).1]) == Records(file)
  {
    hide Records, Visits, Extent, ScanLines;
    ScanExtends(file, offset, luck, parse);
    var rest := file[offset..];
    FewerRecordsThanBytes(rest);
    var count := ScanVisitsRecords(rest, offset, luck.lines, parse);
    assert count == |Records(rest)|;
    assert Scanned(file, offset, luck, parse) == ScanLines(rest, offset, luck.lines, parse);
    hide Scanned, VisitedBetween, IsBoundary;
    CutAll(file, offset);
  }

  lemma {:induction false} CutVisits<V>(file: seq<Byte>, offset: nat, count: nat, parse: seq<Byte> -> Option<V>)
    requires IsBoundary(file, offset) && count <= |Records(file[offset..])|
    ensures var next := offset + Extent(file[offset..], count);
            && IsBoundary(file, next)
            && Records(file[..next]) == Records(file[..offset]) + Records(file[offset..])[..count]
            && Visits(Records(file[..next]), parse)
                 == Visits(Records(file[..offset]), parse) + Visits(Records(file[offset..])[..count], parse)
  {
    hide Records, Visits, Extent;
    var rest := file[offset..];
    ExtentCutsRecords(rest, count);
    RecordsUpTo(file, offset, Extent(rest, count));
    VisitsAppend(Records(file[..offset]), Records(rest)[..count], parse);
  }

  lemma {:induction false} CutAll(file: seq<Byte>, offset: nat)
    requires IsBoundary(file, offset)
    ensures var rest := file[offset..];
            Records(file[..offset + Extent(rest, |Records(rest)|)]) == Records(file)
  {
    hide Records, Extent;
    var rest := file[offset..];
    var count := |Records(rest)|;
    ExtentCutsRecords(rest, count);
    RecordsUpTo(file, offset, Extent(rest, count));
    WholeIsTaken(Records(rest));
    RecordsUpTo(file, offset, |rest|);
    WholeIsTaken(rest);
    WholeIsTaken(file);
  }

  lemma {:induction false} WholeIsTaken<T>(items: seq<T>)
    ensures items[..|items|] == items
  {
  }

  lemma {:induction false} RecordsUpTo(file: seq<Byte>, offset: nat, extent: nat)
    requires IsBoundary(file, offset) && offset + extent <= |file|
    ensures Records(file[..offset + extent]) == Records(file[..offset]) + Records(file[offset..][..extent])
    ensures IsBoundary(file[offset..], extent) ==> IsBoundary(file, offset + extent)
  {
    hide Records;
    TakeSplit(file, offset, extent);
    RecordsAppend(file[..offset], file[offset..][..extent]);
  }

  lemma {:induction false} ResumeKeepsUp<V>(progress: Progress<V>, round: Round, parse: seq<Byte> -> Option<V>)
    requires IsCaughtUp(progress, parse)
    ensures IsCaughtUp(Resume(progress, round, parse), parse)
    ensures var next := Resume(progress, round, parse);
            round.luck.opens && round.luck.lines >= |next.file| ==> next.visited == Visits(Records(next.file), parse)
  {
    var file := progress.file + round.appended;
    assert file[..progress.offset] == progress.file[..progress.offset];
    assert IsBoundary(file, progress.offset);
    ScanExtends(file, progress.offset, round.luck, parse);
    if round.luck.opens && round.luck.lines >= |file| {
      UndisturbedScanReachesAll(file, progress.offset, round.luck, parse);
    }
    hide Records, Visits, Scanned;
  }

  /**
   However the file grew and wherever scans broke off, the scans together visited the
   finished records in front of the offset, in order and once each; and one undisturbed
   scan at the end makes that all of them.
   */
  lemma {:induction false} ResumedScansMissNothing<V>(rounds: seq<Round>, parse: seq<Byte> -> Option<V>)
    ensures var progress := ResumeAll(Progress([], 0, []), rounds, parse);
            && IsCaughtUp(progress, parse)
            && (rounds != [] && rounds[|rounds| - 1].luck.opens
                  && rounds[|rounds| - 1].luck.lines >= |progress.file| ==>
                  progress.visited == Visits(Records(progress.file), parse))
    decreases |rounds|
  {
    if rounds == [] {
      assert Records([]) == [];
    } else {
      ResumedScansMissNothing(rounds[..|rounds| - 1], parse);
      var before := ResumeAll(Progress([], 0, []), rounds[..|rounds| - 1], parse);
      ResumeKeepsUp(before, rounds[|rounds| - 1], parse);
      hide Resume, IsCaughtUp, Records, Visits;
    }
  }

  lemma {:induction false} FewerRecordsThanBytes(bytes: seq<Byte>)
    ensures |Records(bytes)| <= |bytes|
    decreases |bytes|
  {
    var n := NewlineIn(bytes);
    if n < |bytes| {
      FewerRecordsThanBytes(bytes[n + 1..]);
    }
  }
}
