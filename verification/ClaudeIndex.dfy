/**
 The durable index of Claude transcripts. A transcript that looks unchanged is served from
 the index, one that has grown is resumed behind its last finished line, and anything else
 is scanned from the start.
 */
module ClaudeIndex {
  import opened Wrappers
  import opened JsonlScan
  import opened ClaudeSessions

  const EXTERNAL_HISTORY_PARSER_VERSION: nat := 1

  /** How a line is read and a message shortened. */
  datatype Reading = Reading(parse: seq<Byte> -> Option<Entry>, summarize: string -> string)

  datatype Source = Source(
    identity: Option<string>,
    size: nat,
    modified: Option<int>,
    scanOffset: nat,
    parserVersion: nat,
    records: map<string, Record>)

  /**
   One look at a transcript: either no fingerprint can be taken, or it shows the identity,
   size and time, after which the scan reads `file`, which may have grown in between.
   */
  datatype Sighting =
    | Gone
    | Seen(
        identity: Option<string>, size: nat, modified: Option<int>, file: seq<Byte>, luck: Luck,
        fallbackTime: Option<int>)

  predicate SourceMatches(source: Source, sighting: Sighting)
    requires sighting.Seen?
  {
    && source.parserVersion == EXTERNAL_HISTORY_PARSER_VERSION
    && source.identity == sighting.identity
    && source.size == sighting.size
    && source.modified == sighting.modified
  }

  predicate CanResume(source: Source, sighting: Sighting)
    requires sighting.Seen?
  {
    && source.parserVersion == EXTERNAL_HISTORY_PARSER_VERSION
    && source.identity == sighting.identity
    && source.size <= sighting.size
    && source.scanOffset <= source.size
    && source.records != map[]
  }

  function ScannedSource(builders: map<string, Builder>, offset: nat, sighting: Sighting, reading: Reading): Source
    requires sighting.Seen?
  {
    var (entries, scanOffset) := Scanned(sighting.file, offset, sighting.luck, reading.parse);
    Source(
      sighting.identity, sighting.size, sighting.modified, scanOffset, EXTERNAL_HISTORY_PARSER_VERSION,
      FinishClaudeBuilders(Folded(builders, entries), reading.summarize, sighting.fallbackTime))
  }

  /** What the index holds for a transcript after a look at it. */
  function Synced(stored: Option<Source>, sighting: Sighting, reading: Reading): Option<Source>
  {
    if sighting.Gone? || (stored.Some? && SourceMatches(stored.value, sighting)) then stored
    else if stored.Some? && CanResume(stored.value, sighting) then
      Some(ScannedSource(RestoredBuilders(stored.value.records), stored.value.scanOffset, sighting, reading))
    else Some(ScannedSource(map[], 0, sighting, reading))
  }

  /** The index after a look at each of the transcripts in turn. */
  function SyncedAll(
    sources: map<string, Source>, looks: seq<(string, Sighting)>, reading: Reading): map<string, Source>
  {
    if looks == [] then sources
    else
      var before, (path, sighting) := SyncedAll(sources, looks[..|looks| - 1], reading), looks[|looks| - 1];
      var after := Synced(Stored(before, path), sighting, reading);
      if after.Some? then before[path := after.value] else before
  }

  function Stored(sources: map<string, Source>, path: string): Option<Source>
  {
    if path in sources then Some(sources[path]) else None
  }

  /** What a look contributes to the list of sessions: the records of its transcript, unless that is gone. */
  function Contribution(sources: map<string, Source>, look: (string, Sighting)): map<string, Record>
  {
    if look.1.Seen? && look.0 in sources then sources[look.0].records else map[]
  }

  function Contributions(
    sources: map<string, Source>, looks: seq<(string, Sighting)>, reading: Reading): seq<map<string, Record>>
  {
    if looks == [] then []
    else
      Contributions(sources, looks[..|looks| - 1], reading)
      + [Contribution(SyncedAll(sources, looks, reading), looks[|looks| - 1])]
  }

  function Paths(looks: seq<(string, Sighting)>): set<string>
  {
    set k | 0 <= k < |looks| :: looks[k].0
  }

  class ClaudeHistoryIndex {
    var sources: map<string, Source>

    method FoldLines(builders: ClaudeBuilders, entries: seq<Entry>)
      modifies builders
      ensures builders.sessions == Folded(old(builders.sessions), entries)
    {
      var k := 0;
      assert entries[..0] == [];
      while k < |entries|
        invariant k <= |entries|
        invariant builders.sessions == Folded(old(builders.sessions), entries[..k])
      {
        builders.UpdateClaudeBuilder(entries[k]);
        k := k + 1;
        assert entries[..k][..k - 1] == entries[..k - 1];
      }
      assert entries[..k] == entries;
    }

    method SyncSource(path: string, sighting: Sighting, reading: Reading) returns (records: map<string, Record>)
      modifies this
      ensures Stored(sources, path) == Synced(Stored(old(sources), path), sighting, reading)
      ensures records == Contribution(sources, (path, sighting))
      ensures sources - {path} == old(sources) - {path}
    {
      var stored := Stored(sources, path);
      if sighting.Gone? {
        return map[];
      }
      if stored.Some? && SourceMatches(stored.value, sighting) {
        return stored.value.records;
      }
      var offset := 0;
      var builders := new ClaudeBuilders(map[]);
      if stored.Some? && CanResume(stored.value, sighting) {
        builders := new ClaudeBuilders(RestoredBuilders(stored.value.records));
        offset := stored.value.scanOffset;
      }
      ghost var start, from := builders.sessions, offset;
      var entries;
      entries, offset := ForEachJsonLineFrom(sighting.file, offset, sighting.luck, reading.parse);
      FoldLines(builders, entries);
      var discovered := FinishClaudeBuilders(builders.sessions, reading.summarize, sighting.fallbackTime);
      var source := Source(
        sighting.identity, sighting.size, sighting.modified, offset, EXTERNAL_HISTORY_PARSER_VERSION, discovered);
      assert source == ScannedSource(start, from, sighting, reading);
      sources := sources[path := source];
      records := discovered;
    }

    /** Looks at the listed transcripts, and forgets all others. */
    method SyncClaudeSources(
      looks: seq<(string, Sighting)>, reading: Reading) returns (records: seq<map<string, Record>>)
      modifies this
      ensures records == Contributions(old(sources), looks, reading)
      ensures sources == map path | path in SyncedAll(old(sources), looks, reading) && path in Paths(looks)
                           :: SyncedAll(old(sources), looks, reading)[path]
    {
      var k := 0;
      records := [];
      assert looks[..0] == [];
      while k < |looks|
        invariant k <= |looks|
        invariant records == Contributions(old(sources), looks[..k], reading)
        invariant sources == SyncedAll(old(sources), looks[..k], reading)
      {
        ghost var before := sources;
        var found := SyncSource(looks[k].0, looks[k].1, reading);
        records := records + [found];
        k := k + 1;
        assert looks[..k][..k - 1] == looks[..k - 1];
        OneEntryChanged(before, sources, looks[k - 1].0);
      }
      assert looks[..k] == looks;
      sources := map path | path in sources && path in Paths(looks) :: sources[path];
    }
  }

  lemma {:induction false} OneEntryChanged(before: map<string, Source>, after: map<string, Source>, path: string)
    requires after - {path} == before - {path}
    ensures after == if path in after then before[path := after[path]] else before - {path}
  {
    assert forall other :: other in after && other != path <==> other in after - {path};
    assert forall other :: other in before && other != path <==> other in before - {path};
    assert forall other :: other in after - {path} ==> after[other] == (after - {path})[other];
    assert forall other :: other in before - {path} ==> before[other] == (before - {path})[other];
  }

  /** Transcripts do not disturb one another: each is as if it had been the only one looked at. */
  lemma {:induction false} SyncIsPerPath(
    sources: map<string, Source>, looks: seq<(string, Sighting)>, reading: Reading, path: string)
    requires forall i, j :: 0 <= i < j < |looks| ==> looks[i].0 != looks[j].0
    ensures forall k :: 0 <= k < |looks| && looks[k].0 == path ==>
              Stored(SyncedAll(sources, looks, reading), path) == Synced(Stored(sources, path), looks[k].1, reading)
    ensures path !in Paths(looks) ==> Stored(SyncedAll(sources, looks, reading), path) == Stored(sources, path)
  {
    if looks != [] {
      var before, last := looks[..|looks| - 1], looks[|looks| - 1];
      SyncIsPerPath(sources, before, reading, path);
      hide Synced;
      assert forall k :: 0 <= k < |before| ==> before[k] == looks[k];
      assert last.0 in Paths(looks) && Paths(before) <= Paths(looks);
      assert last.0 == path ==> path !in Paths(before);
    }
  }

  // ----- A transcript over many looks -----

  /**
   One transcript: its bytes as last seen, what the index holds, and what the scans since
   the last one from the start have read of a session without making a record of it.
   */
  datatype Track = Track(file: seq<Byte>, stored: Option<Source>, lost: map<string, Shown>)

  /** A round either looks at the transcript or, not finding it listed, drops it from the index. */
  datatype Round = Unlisted | Listed(sighting: Sighting)

  /** Lines met by a scan are lost for the sessions that have no record after it. */
  function LostAfter(lost: map<string, Shown>, met: seq<Entry>, records: map<string, Record>): map<string, Shown>
  {
    map id | id in lost.Keys + (Sessions(met) - records.Keys) ::
      if id in records then LostOf(lost, id) else JoinShown(LostOf(lost, id), Told(Gathered(id, met)))
  }

  function LostOf(lost: map<string, Shown>, id: string): Shown
  {
    if id in lost then lost[id] else NOTHING
  }

  function Looked(track: Track, sighting: Sighting, reading: Reading): Track
  {
    if sighting.Gone? then track
    else
      var after := Synced(track.stored, sighting, reading);
      var lost :=
        if track.stored.Some? && SourceMatches(track.stored.value, sighting) then track.lost
        else if track.stored.Some? && CanResume(track.stored.value, sighting) then
          var met := Scanned(sighting.file, track.stored.value.scanOffset, sighting.luck, reading.parse).0;
          LostAfter(track.lost, met, after.value.records)
        else LostAfter(map[], Scanned(sighting.file, 0, sighting.luck, reading.parse).0, after.value.records);
      Track(sighting.file, after, lost)
  }

  function Next(track: Track, round: Round, reading: Reading): Track
  {
    match round
    case Unlisted => track.(stored := None)
    case Listed(sighting) => Looked(track, sighting, reading)
  }

  function Run(track: Track, rounds: seq<Round>, reading: Reading): Track
  {
    if rounds == [] then track
    else Next(Run(track, rounds[..|rounds| - 1], reading), rounds[|rounds| - 1], reading)
  }

  /** While a transcript keeps its identity, bytes are only ever added to it. */
  ghost predicate IsAppendOnly(track: Track, sighting: Sighting)
  {
    sighting.Seen? ==>
      && sighting.size <= |sighting.file|
      && (track.stored.Some? && track.stored.value.identity == sighting.identity ==>
            track.file <= sighting.file[..sighting.size])
  }

  /** The lines in front of the offset. */
  function LinesBefore(file: seq<Byte>, offset: nat, reading: Reading): seq<Entry>
    requires offset <= |file|
  {
    Visits(Records(file[..offset]), reading.parse)
  }

  /** The record of a session shows what the lines in front of the offset say of it, less what was lost. */
  ghost predicate IsFaithfulFor(records: map<string, Record>, lines: seq<Entry>, lost: map<string, Shown>, id: string)
  {
    && (id in records ==>
          id != "" && records[id].id == id && records[id].projectPath != "" && records[id].messageCount > 0)
    && Told(Gathered(id, lines)) == JoinShown(LostOf(lost, id), KeptOf(records, id))
    && (id in lost ==> id != "" && (lost[id].messageCount == 0 ==> lost[id].model == None))
  }

  function KeptOf(records: map<string, Record>, id: string): Shown
  {
    if id in records then Shown(records[id].projectPath, records[id].messageCount, records[id].model) else NOTHING
  }

  ghost predicate IsFaithful(track: Track, reading: Reading)
  {
    track.stored.Some? && track.stored.value.parserVersion == EXTERNAL_HISTORY_PARSER_VERSION ==>
      var source := track.stored.value;
      && source.size <= |track.file|
      && IsBoundary(track.file, source.scanOffset)
      && forall id :: IsFaithfulFor(source.records, LinesBefore(track.file, source.scanOffset, reading),
            track.lost, id)
  }

  /** The lines in front of a boundary stay what they are when the file grows. */
  lemma {:induction false} LinesStay(file: seq<Byte>, grown: seq<Byte>, offset: nat, reading: Reading)
    requires file <= grown && IsBoundary(file, offset)
    ensures IsBoundary(grown, offset) && LinesBefore(grown, offset, reading) == LinesBefore(file, offset, reading)
  {
    assert grown[..offset] == file[..offset];
    hide Records, Visits;
  }

  /** Scanning on from a boundary adds the lines met to those in front of it. */
  lemma {:induction false} LinesGrow(file: seq<Byte>, offset: nat, luck: Luck, reading: Reading)
    requires IsBoundary(file, offset)
    ensures var (entries, next) := Scanned(file, offset, luck, reading.parse);
            IsBoundary(file, next) && LinesBefore(file, next, reading) == LinesBefore(file, offset, reading) + entries
  {
    hide Scanned, Records, Visits;
    ScanExtends(file, offset, luck, reading.parse);
  }

  /** One session through a resumed scan. */
  lemma {:induction false} ResumeKeepsFaith(
    records: map<string, Record>, lines: seq<Entry>, lost: map<string, Shown>, met: seq<Entry>, id: string,
    reading: Reading, now: Option<int>)
    requires IsFaithfulFor(records, lines, lost, id)
    ensures var after := Resumed(records, met, reading.summarize, now);
            IsFaithfulFor(after, lines + met, LostAfter(lost, met, after), id)
  {
    hide Gathered, Sessions, Folded, Resumed, Joined, JoinShown;
    ResumeShows(records, met, id, reading.summarize, now);
    FoldIsPerSession(map[], met, id);
    SessionsAppend(met, []);
    GatheredAppend(id, lines, met);
    GatheredKeepsId(id, lines);
    GatheredKeepsId(id, met);
    ToldJoins(Gathered(id, lines), Gathered(id, met));
    JoinShownIsAssociative(LostOf(lost, id), KeptOf(records, id), Told(Gathered(id, met)));
    NothingJoined(LostOf(lost, id));
    NothingJoined(Told(Gathered(id, met)));
    NothingJoined(JoinShown(LostOf(lost, id), Told(Gathered(id, met))));
    if id in records {
      ToldJoins(RestoredBuilder(records[id]), Gathered(id, met));
      ListedGoesOn(RestoredBuilder(records[id]), Gathered(id, met));
    }
    LostStaysPlain(LostOf(lost, id), Gathered(id, met));
  }

  lemma {:induction false} ToldJoins(a: Builder, b: Builder)
    ensures Told(Joined(a, b)) == JoinShown(Told(a), Told(b))
  {
  }

  lemma {:induction false} JoinShownIsAssociative(a: Shown, b: Shown, c: Shown)
    ensures JoinShown(JoinShown(a, b), c) == JoinShown(a, JoinShown(b, c))
  {
  }

  lemma {:induction false} NothingJoined(a: Shown)
    ensures JoinShown(a, NOTHING) == a && JoinShown(NOTHING, a) == a
  {
  }

  lemma {:induction false} ListedGoesOn(kept: Builder, more: Builder)
    requires IsListed(kept)
    ensures IsListed(Joined(kept, more))
  {
  }

  lemma {:induction false} LostStaysPlain(lost: Shown, more: Builder)
    requires lost.messageCount == 0 ==> lost.model == None
    requires more.messageCount == 0 ==> more.model == None
    ensures JoinShown(lost, Told(more)).messageCount == 0 ==> JoinShown(lost, Told(more)).model == None
  {
  }

  lemma {:induction false} RescanKeepsFaith(sighting: Sighting, reading: Reading)
    requires sighting.Seen? && sighting.size <= |sighting.file|
    ensures var scan := Scanned(sighting.file, 0, sighting.luck, reading.parse).0;
            var source := ScannedSource(map[], 0, sighting, reading);
            IsFaithful(Track(sighting.file, Some(source), LostAfter(map[], scan, source.records)), reading)
  {
    hide Scanned, Sessions, Records, Visits, Folded, IsFaithfulFor, FinishClaudeBuilders, LostAfter;
    var scan := Scanned(sighting.file, 0, sighting.luck, reading.parse).0;
    LinesGrow(sighting.file, 0, sighting.luck, reading);
    NoLines(sighting.file, reading);
    assert RestoredBuilders(map[]) == map[];
    var records := Resumed(map[], scan, reading.summarize, sighting.fallbackTime);
    assert [] + scan == scan;
    forall id: string
      ensures IsFaithfulFor(records, scan, LostAfter(map[], scan, records), id)
    {
      NothingIsFaithful(id);
      ResumeKeepsFaith(map[], [], map[], scan, id, reading, sighting.fallbackTime);
    }
  }

  lemma {:induction false} NoLines(file: seq<Byte>, reading: Reading)
    ensures LinesBefore(file, 0, reading) == []
  {
    assert file[..0] == [];
  }

  lemma {:induction false} NothingIsFaithful(id: string)
    ensures IsFaithfulFor(map[], [], map[], id)
  {
  }

  lemma {:induction false} ResumedScanKeepsFaith(track: Track, sighting: Sighting, reading: Reading)
    requires IsFaithful(track, reading) && sighting.Seen? && IsAppendOnly(track, sighting)
    requires track.stored.Some? && CanResume(track.stored.value, sighting)
    ensures var offset := track.stored.value.scanOffset;
            var scan := Scanned(sighting.file, offset, sighting.luck, reading.parse).0;
            var source := ScannedSource(RestoredBuilders(track.stored.value.records), offset, sighting, reading);
            IsFaithful(Track(sighting.file, Some(source), LostAfter(track.lost, scan, source.records)), reading)
  {
    hide Scanned, Sessions, Records, Visits, Folded, IsFaithfulFor, FinishClaudeBuilders, LinesBefore, LostAfter;
    var source := track.stored.value;
    var offset := source.scanOffset;
    var scan := Scanned(sighting.file, offset, sighting.luck, reading.parse).0;
    LinesStay(track.file, sighting.file, offset, reading);
    LinesGrow(sighting.file, offset, sighting.luck, reading);
    var lines, records := LinesBefore(track.file, offset, reading),
          Resumed(source.records, scan, reading.summarize, sighting.fallbackTime);
    forall id: string
      ensures IsFaithfulFor(records, lines + scan, LostAfter(track.lost, scan, records), id)
    {
      ResumeKeepsFaith(source.records, lines, track.lost, scan, id, reading, sighting.fallbackTime);
    }
  }

  lemma {:induction false} LookKeepsFaith(track: Track, sighting: Sighting, reading: Reading)
    requires IsFaithful(track, reading) && IsAppendOnly(track, sighting)
    ensures IsFaithful(Looked(track, sighting, reading), reading)
  {
    hide ScannedSource, IsFaithfulFor, LinesBefore, IsBoundary, LostAfter;
    if sighting.Seen? {
      if track.stored.Some? && SourceMatches(track.stored.value, sighting) {
        LinesStayAt(track, sighting, reading);
      } else if track.stored.Some? && CanResume(track.stored.value, sighting) {
        ResumedScanKeepsFaith(track, sighting, reading);
      } else {
        RescanKeepsFaith(sighting, reading);
      }
    }
  }

  lemma {:induction false} LinesStayAt(track: Track, sighting: Sighting, reading: Reading)
    requires IsFaithful(track, reading) && sighting.Seen? && IsAppendOnly(track, sighting)
    requires track.stored.Some? && SourceMatches(track.stored.value, sighting)
    ensures IsFaithful(Track(sighting.file, track.stored, track.lost), reading)
  {
    hide IsFaithfulFor, LinesBefore;
    LinesStay(track.file, sighting.file, track.stored.value.scanOffset, reading);
  }

  /** Every look of the run finds a file that only grew since the look before. */
  ghost predicate IsAppendOnlyRun(track: Track, rounds: seq<Round>, reading: Reading)
  {
    forall k :: 0 <= k < |rounds| && rounds[k].Listed? ==>
        IsAppendOnly(Run(track, rounds[..k], reading), rounds[k].sighting)
  }

  lemma {:induction false} RunKeepsFaith(track: Track, rounds: seq<Round>, reading: Reading)
    requires IsFaithful(track, reading) && IsAppendOnlyRun(track, rounds, reading)
    ensures IsFaithful(Run(track, rounds, reading), reading)
  {
    if rounds != [] {
      var before, round := rounds[..|rounds| - 1], rounds[|rounds| - 1];
      assert forall k :: 0 <= k < |before| ==> before[..k] == rounds[..k] && before[k] == rounds[k];
      RunKeepsFaith(track, before, reading);
      if round.Listed? {
        LookKeepsFaith(Run(track, before, reading), round.sighting, reading);
      }
      hide Looked, IsFaithfulFor, LinesBefore, IsAppendOnly;
    }
  }

  /** What was lost of a session changes nothing about what the index shows of it. */
  ghost predicate LossDoesNotShow(lost: Shown, records: map<string, Record>, id: string)
  {
    if id in records then lost.messageCount == 0 && lost.projectPath in {"", records[id].projectPath}
    else lost.messageCount == 0 || lost.projectPath == ""
  }

  /**
   Over any run of looks at a transcript that only grows, or is replaced by another file,
   whatever an index without an entry of this version has been through: a session shows
   the count, project path and model that one scan of the lines in front of the offset
   shows, or is missing like there, exactly if what was lost of it does not show. A
   session of which nothing was lost always does, and no session ever shows more
   messages.
   */
  lemma {:induction false} ResumedIndexEqualsRescanIff(
    start: Track, rounds: seq<Round>, reading: Reading, fallbackTime: Option<int>, id: string)
    requires start.stored.Some? ==> start.stored.value.parserVersion != EXTERNAL_HISTORY_PARSER_VERSION
    requires IsAppendOnlyRun(start, rounds, reading)
    ensures var end := Run(start, rounds, reading);
            end.stored.Some? && end.stored.value.parserVersion == EXTERNAL_HISTORY_PARSER_VERSION ==>
              && IsBoundary(end.file, end.stored.value.scanOffset)
              && var records := end.stored.value.records;
                 var lines := LinesBefore(end.file, end.stored.value.scanOffset, reading);
                 var rescanned := Rescanned(lines, reading.summarize, fallbackTime);
                 && (ShownIn(records, id) == ShownIn(rescanned, id)
                     <==> LossDoesNotShow(LostOf(end.lost, id), records, id))
                 && (id !in end.lost ==> LossDoesNotShow(LostOf(end.lost, id), records, id))
                 && (id in records ==> id in rescanned && records[id].messageCount <= rescanned[id].messageCount)
  {
    RunKeepsFaith(start, rounds, reading);
    hide Run, LinesBefore, IsAppendOnlyRun;
    var end := Run(start, rounds, reading);
    if end.stored.Some? && end.stored.value.parserVersion == EXTERNAL_HISTORY_PARSER_VERSION {
      var lines := LinesBefore(end.file, end.stored.value.scanOffset, reading);
      assert IsFaithfulFor(end.stored.value.records, lines, end.lost, id);
      hide IsFaithfulFor, Rescanned, ShownIn, LossDoesNotShow;
      LossDoesNotShowIff(end.stored.value.records, lines, end.lost, id, reading, fallbackTime);
    }
  }

  lemma {:induction false} LossDoesNotShowIff(
    records: map<string, Record>, lines: seq<Entry>, lost: map<string, Shown>, id: string, reading: Reading,
    fallbackTime: Option<int>)
    requires IsFaithfulFor(records, lines, lost, id)
    ensures var rescanned := Rescanned(lines, reading.summarize, fallbackTime);
            && (ShownIn(records, id) == ShownIn(rescanned, id) <==> LossDoesNotShow(LostOf(lost, id), records, id))
            && (id !in lost ==> LossDoesNotShow(LostOf(lost, id), records, id))
            && (id in records ==> id in rescanned && records[id].messageCount <= rescanned[id].messageCount)
  {
    hide Gathered, Rescanned, View, Told, JoinShown;
    RescanShows(lines, id, reading.summarize, fallbackTime);
    GatheredKeepsId(id, lines);
    LossInView(Gathered(id, lines), LostOf(lost, id), ShownIn(records, id));
  }

  /** One session, by what is shown of it and what was lost. */
  lemma {:induction false} LossInView(builder: Builder, lost: Shown, shown: Option<Shown>)
    requires builder.id == "" ==> lost == NOTHING && shown.None?
    requires shown.Some? ==> shown.value.projectPath != "" && shown.value.messageCount > 0
    requires lost.messageCount == 0 ==> lost.model == None
    requires Told(builder) == JoinShown(lost, if shown.Some? then shown.value else NOTHING)
    ensures shown == View(builder) <==>
              if shown.Some? then lost.messageCount == 0 && lost.projectPath in {"", shown.value.projectPath}
              else lost.messageCount == 0 || lost.projectPath == ""
    ensures shown.Some? ==> View(builder).Some? && shown.value.messageCount <= View(builder).value.messageCount
  {
  }

  /** A transcript whose fingerprint is that of the look before is served from the index, whatever is in the file. */
  lemma {:induction false} UnchangedLookIsServed(
    stored: Option<Source>, first: Sighting, second: Sighting, reading: Reading)
    requires first.Seen? && second.Seen?
    requires first.identity == second.identity && first.size == second.size && first.modified == second.modified
    ensures var after := Synced(stored, first, reading);
            after.Some? && after.value.identity == first.identity && after.value.size == first.size
            && after.value.modified == first.modified && after.value.parserVersion == 1
            && Synced(after, second, reading) == after
  {
    hide Scanned, FinishClaudeBuilders, Folded;
  }

  /** After a look whose scan was not disturbed, the lines in front of the offset are all that are finished. */
  lemma {:induction false} UndisturbedLookIsComplete(track: Track, sighting: Sighting, reading: Reading)
    requires IsFaithful(track, reading) && sighting.Seen? && IsAppendOnly(track, sighting)
    requires track.stored.Some? ==>
               || track.stored.value.parserVersion != 1
               || track.stored.value.identity != sighting.identity
               || track.stored.value.size != sighting.size
               || track.stored.value.modified != sighting.modified
    requires sighting.luck.opens && sighting.luck.lines >= |sighting.file|
    ensures var after := Looked(track, sighting, reading).stored.value;
            && after.scanOffset <= |sighting.file|
            && LinesBefore(sighting.file, after.scanOffset, reading) == Visits(Records(sighting.file), reading.parse)
  {
    hide Records, Visits, Scanned, IsFaithfulFor, Folded, Sessions;
    if track.stored.Some? && CanResume(track.stored.value, sighting) {
      assert IsBoundary(sighting.file, track.stored.value.scanOffset) by {
        LinesStay(track.file, sighting.file, track.stored.value.scanOffset, reading);
      }
      UndisturbedScanReachesAll(sighting.file, track.stored.value.scanOffset, sighting.luck, reading.parse);
    } else {
      UndisturbedScanReachesAll(sighting.file, 0, sighting.luck, reading.parse);
    }
  }

  // ----- Exactly when two looks agree with one -----

  /** The second look finds the file of the first, perhaps grown. */
  ghost predicate IsGrown(first: Sighting, second: Sighting)
    requires first.Seen? && second.Seen?
  {
    && first.identity == second.identity && first.size <= |first.file|
    && second.size <= |second.file| && first.file <= second.file[..second.size]
  }

  lemma {:induction false} FirstLook(first: Sighting, reading: Reading) returns (stored: Source, earlier: seq<Entry>)
    requires first.Seen?
    ensures Synced(None, first, reading) == Some(stored)
    ensures IsBoundary(first.file, stored.scanOffset) && earlier == LinesBefore(first.file, stored.scanOffset, reading)
    ensures stored.identity == first.identity && stored.size == first.size
    ensures stored.parserVersion == EXTERNAL_HISTORY_PARSER_VERSION
    ensures stored.records == Rescanned(earlier, reading.summarize, first.fallbackTime)
  {
    hide Scanned, LinesBefore, Folded, FinishClaudeBuilders;
    stored := ScannedSource(map[], 0, first, reading);
    earlier := Scanned(first.file, 0, first.luck, reading.parse).0;
    LinesGrow(first.file, 0, first.luck, reading);
    NoLines(first.file, reading);
    assert [] + earlier == earlier;
  }

  /**
   After two looks the index shows a session as one scan of the same lines does exactly
   when the second look found nothing new or scanned from the start, or the first had
   made a record of the session, or what it lost of the session does not show. The scan
   starts over, in particular, when the earlier lines made no record of any session.
   */
  lemma {:induction false} TwoLooksShowRescanIff(
    first: Sighting, second: Sighting, reading: Reading, id: string, now: Option<int>)
    requires first.Seen? && second.Seen? && IsGrown(first, second)
    ensures var stored := Synced(None, first, reading).value;
            var after := Synced(Some(stored), second, reading).value;
            && stored.scanOffset <= |first.file| && after.scanOffset <= |second.file|
            && var earlier := Gathered(id, LinesBefore(first.file, stored.scanOffset, reading));
               var later := Gathered(id, Scanned(second.file, stored.scanOffset, second.luck, reading.parse).0);
               var lines := LinesBefore(second.file, after.scanOffset, reading);
               (ShownIn(after.records, id) == ShownIn(Rescanned(lines, reading.summarize, now), id)
                <==> SourceMatches(stored, second)
                     || stored.records == map[] || stored.scanOffset > stored.size
                     || IsListed(earlier) || LossIsHarmless(earlier, later))
  {
    var stored, earlier := FirstLook(first, reading);
    var after := Synced(Some(stored), second, reading).value;
    LinesStay(first.file, second.file, stored.scanOffset, reading);
    if SourceMatches(stored, second) {
      SameLinesShowTheSame(earlier, reading, id, first.fallbackTime, now);
    } else if CanResume(stored, second) {
      ResumedLook(stored, earlier, second, reading, id, first.fallbackTime, now);
    } else {
      var _, lines := FirstLook(second, reading);
      SameLinesShowTheSame(lines, reading, id, second.fallbackTime, now);
    }
    hide Synced, LinesBefore, Scanned, IsListed, LossIsHarmless, Rescanned, IsBoundary, ShownIn, Gathered;
  }

  lemma {:induction false} SameLinesShowTheSame(
    lines: seq<Entry>, reading: Reading, id: string, was: Option<int>, now: Option<int>)
    ensures ShownIn(Rescanned(lines, reading.summarize, was), id)
          == ShownIn(Rescanned(lines, reading.summarize, now), id)
  {
    RescanShows(lines, id, reading.summarize, was);
    RescanShows(lines, id, reading.summarize, now);
    hide Rescanned, View, Gathered, ShownIn;
  }

  lemma {:induction false} ResumedLook(
    stored: Source, earlier: seq<Entry>, second: Sighting, reading: Reading, id: string, was: Option<int>,
    now: Option<int>)
    requires second.Seen? && !SourceMatches(stored, second) && CanResume(stored, second)
    requires IsBoundary(second.file, stored.scanOffset)
    requires earlier == LinesBefore(second.file, stored.scanOffset, reading)
    requires stored.records == Rescanned(earlier, reading.summarize, was)
    ensures var after := Synced(Some(stored), second, reading).value;
            var later := Scanned(second.file, stored.scanOffset, second.luck, reading.parse).0;
            && after.scanOffset <= |second.file|
            && (ShownIn(after.records, id)
                  == ShownIn(Rescanned(LinesBefore(second.file, after.scanOffset, reading), reading.summarize, now), id)
                <==> IsListed(Gathered(id, earlier)) || LossIsHarmless(Gathered(id, earlier), Gathered(id, later)))
  {
    hide LinesBefore, Scanned, Rescanned, Resumed, ShownIn, IsListed, LossIsHarmless, Gathered;
    var later := Scanned(second.file, stored.scanOffset, second.luck, reading.parse).0;
    LinesGrow(second.file, stored.scanOffset, second.luck, reading);
    ResumedShowsRescanIff(earlier, later, id, reading.summarize, was, second.fallbackTime);
    SameLinesShowTheSame(earlier + later, reading, id, second.fallbackTime, now);
    assert Synced(Some(stored), second, reading).value.records
        == Resumed(stored.records, later, reading.summarize, second.fallbackTime) by {
      ScannedIsResumed(stored, second, reading);
    }
  }

  lemma {:induction false} ScannedIsResumed(stored: Source, second: Sighting, reading: Reading)
    requires second.Seen?
    ensures ScannedSource(RestoredBuilders(stored.records), stored.scanOffset, second, reading).records
         == Resumed(stored.records, Scanned(second.file, stored.scanOffset, second.luck, reading.parse).0,
                    reading.summarize, second.fallbackTime)
  {
    hide Scanned, Folded, FinishClaudeBuilders, RestoredBuilders;
  }
}
