/**
 What a Claude transcript says about its sessions: each line updates the builder of one
 session, and finished builders become the records of the history index.
 */
module ClaudeSessions {
  import opened Wrappers

  /** The fields of a transcript line that the index reads. */
  datatype Entry = Entry(
    isSidechain: bool,
    sessionId: Option<string>,
    cwd: Option<string>,
    summary: Option<string>, // present only on lines of type "summary"
    timestamp: Option<int>,
    role: Option<string>,
    content: string,
    isVisibleText: bool,
    model: Option<string>)

  datatype Builder = Builder(
    id: string,
    projectPath: string,
    title: Option<string>,
    firstUser: Option<string>,
    messageCount: nat,
    lastActivity: Option<int>,
    model: Option<string>)

  datatype Record = Record(
    id: string,
    projectPath: string,
    title: string,
    messageCount: nat,
    lastActivity: int,
    model: Option<string>)

  function NewBuilder(id: string): Builder
  {
    Builder(id, "", None, None, 0, None, None)
  }

  function Or<T>(a: Option<T>, b: Option<T>): Option<T>
  {
    if a.Some? then a else b
  }

  function Latest(current: Option<int>, candidate: Option<int>): Option<int>
  {
    if current.Some? && candidate.Some? && current.value < candidate.value then candidate else Or(current, candidate)
  }

  /** The session a line belongs to, if it counts for any. */
  function SessionOf(entry: Entry): Option<string>
  {
    if entry.isSidechain || entry.sessionId == Some("") then None else entry.sessionId
  }

  predicate IsCounted(entry: Entry)
  {
    entry.role.Some? && entry.content != "" && (entry.role.value == "user" ==> entry.isVisibleText)
  }

  /** What one line of the session's own does to its builder. */
  function Touch(builder: Builder, entry: Entry): Builder
  {
    var noted := builder.(
      projectPath :=
        if builder.projectPath != "" then builder.projectPath
        else if entry.cwd.Some? then entry.cwd.value
        else "",
      title := Or(entry.summary, builder.title),
      lastActivity := Latest(builder.lastActivity, entry.timestamp));
    if !IsCounted(entry) then noted
    else if entry.role.value == "user" then
      noted.(messageCount := noted.messageCount + 1, firstUser := Or(noted.firstUser, Some(entry.content)))
    else if entry.role.value == "assistant" then
      noted.(messageCount := noted.messageCount + 1, model := Or(noted.model, entry.model))
    else noted
  }

  function Updated(sessions: map<string, Builder>, entry: Entry): map<string, Builder>
  {
    match SessionOf(entry)
    case None => sessions
    case Some(id) => sessions[id := Touch(if id in sessions then sessions[id] else NewBuilder(id), entry)]
  }

  /** The builders after the lines, in order. */
  function Folded(sessions: map<string, Builder>, entries: seq<Entry>): map<string, Builder>
  {
    if entries == [] then sessions
    else Updated(Folded(sessions, entries[..|entries| - 1]), entries[|entries| - 1])
  }

  class ClaudeBuilders {
    var sessions: map<string, Builder>

    constructor (builders: map<string, Builder>)
      ensures sessions == builders
    {
      sessions := builders;
    }

    method UpdateClaudeBuilder(entry: Entry)
      modifies this
      ensures sessions == Updated(old(sessions), entry)
    {
      if entry.isSidechain || entry.sessionId.None? || entry.sessionId.value == "" {
        return;
      }
      var id := entry.sessionId.value;
      var builder := if id in sessions then sessions[id] else NewBuilder(id);
      if builder.projectPath == "" {
        builder := builder.(projectPath := if entry.cwd.Some? then entry.cwd.value else "");
      }
      if entry.summary.Some? {
        builder := builder.(title := entry.summary);
      }
      builder := builder.(lastActivity := Latest(builder.lastActivity, entry.timestamp));
      if entry.role.Some? && entry.content != "" && (entry.role.value != "user" || entry.isVisibleText) {
        var role := entry.role.value;
        if role == "user" || role == "assistant" {
          builder := builder.(messageCount := builder.messageCount + 1);
        }
        if role == "user" && builder.firstUser.None? {
          builder := builder.(firstUser := Some(entry.content));
        }
        if role == "assistant" && builder.model.None? {
          builder := builder.(model := entry.model);
        }
      }
      sessions := sessions[id := builder];
    }
  }

  // ----- One session at a time -----

  /** What the lines say about one session, starting from nothing. */
  function Gathered(id: string, entries: seq<Entry>): Builder
  {
    if entries == [] then NewBuilder(id)
    else
      var before, entry := Gathered(id, entries[..|entries| - 1]), entries[|entries| - 1];
      if SessionOf(entry) == Some(id) then Touch(before, entry) else before
  }

  /** Two stretches of a session, one after the other. */
  function Joined(a: Builder, b: Builder): Builder
  {
    Builder(
      a.id,
      if a.projectPath == "" then b.projectPath else a.projectPath,
      Or(b.title, a.title),
      Or(a.firstUser, b.firstUser),
      a.messageCount + b.messageCount,
      Latest(a.lastActivity, b.lastActivity),
      Or(a.model, b.model))
  }

  function Sessions(entries: seq<Entry>): set<string>
  {
    set k | 0 <= k < |entries| && SessionOf(entries[k]).Some? :: SessionOf(entries[k]).value
  }

  lemma {:induction false} TouchJoins(a: Builder, b: Builder, entry: Entry)
    ensures Touch(Joined(a, b), entry) == Joined(a, Touch(b, entry))
  {
    LatestIsAssociative(a.lastActivity, b.lastActivity, entry.timestamp);
    OrIsAssociative(entry.summary, b.title, a.title);
    OrIsAssociative(a.firstUser, b.firstUser, Some(entry.content));
    OrIsAssociative(a.model, b.model, entry.model);
    hide Latest, Or, IsCounted;
  }

  lemma {:induction false} OrIsAssociative<T>(a: Option<T>, b: Option<T>, c: Option<T>)
    ensures Or(Or(a, b), c) == Or(a, Or(b, c))
  {
  }

  lemma {:induction false} LatestIsAssociative(a: Option<int>, b: Option<int>, c: Option<int>)
    ensures Latest(Latest(a, b), c) == Latest(a, Latest(b, c))
  {
  }

  lemma {:induction false} SessionsOfLast(entries: seq<Entry>)
    requires entries != []
    ensures var before, last := entries[..|entries| - 1], SessionOf(entries[|entries| - 1]);
            Sessions(entries) == Sessions(before) + if last.Some? then {last.value} else {}
  {
    var before, last := entries[..|entries| - 1], SessionOf(entries[|entries| - 1]);
    forall id
      ensures id in Sessions(entries) <==> id in Sessions(before) || last == Some(id)
    {
      if id in Sessions(before) {
        var k :| 0 <= k < |before| && SessionOf(before[k]) == Some(id);
        assert entries[k] == before[k];
      }
      if id in Sessions(entries) {
        var k :| 0 <= k < |entries| && SessionOf(entries[k]) == Some(id);
        assert k < |before| ==> before[k] == entries[k];
      }
    }
  }

  /** The fold keeps the sessions apart: each builder is its old self joined with what the lines say about it. */
  lemma {:induction false} FoldIsPerSession(sessions: map<string, Builder>, entries: seq<Entry>, id: string)
    ensures id in Folded(sessions, entries) <==> id in sessions || id in Sessions(entries)
    ensures id in sessions ==> Folded(sessions, entries)[id] == Joined(sessions[id], Gathered(id, entries))
    ensures id in Sessions(entries) && id !in sessions ==> Folded(sessions, entries)[id] == Gathered(id, entries)
    ensures id !in Sessions(entries) ==> Gathered(id, entries) == NewBuilder(id)
  {
    if entries != [] {
      var before, entry := entries[..|entries| - 1], entries[|entries| - 1];
      FoldIsPerSession(sessions, before, id);
      SessionsOfLast(entries);
      if id in sessions {
        TouchJoins(sessions[id], Gathered(id, before), entry);
      }
      hide Touch, Joined, Sessions;
    }
  }

  /** A session read in two goes is one session. */
  lemma {:induction false} GatheredAppend(id: string, earlier: seq<Entry>, later: seq<Entry>)
    ensures Gathered(id, earlier + later) == Joined(Gathered(id, earlier), Gathered(id, later))
  {
    var all := earlier + later;
    if later == [] {
      assert all == earlier;
      GatheredKeepsId(id, earlier);
    } else {
      var before, entry := later[..|later| - 1], later[|later| - 1];
      assert all[..|all| - 1] == earlier + before && all[|all| - 1] == entry;
      GatheredAppend(id, earlier, before);
      TouchJoins(Gathered(id, earlier), Gathered(id, before), entry);
      hide Touch, Joined;
    }
  }

  lemma {:induction false} GatheredKeepsId(id: string, entries: seq<Entry>)
    ensures Gathered(id, entries).id == id
    ensures Gathered(id, entries).messageCount == 0 ==> Gathered(id, entries).model == None
  {
    if entries != [] {
      GatheredKeepsId(id, entries[..|entries| - 1]);
    }
  }

  lemma {:induction false} SessionsAppend(a: seq<Entry>, b: seq<Entry>)
    ensures Sessions(a + b) == Sessions(a) + Sessions(b)
    ensures "" !in Sessions(a)
  {
    forall id
      ensures id in Sessions(a + b) <==> id in Sessions(a) || id in Sessions(b)
    {
      if id in Sessions(a) {
        var k :| 0 <= k < |a| && SessionOf(a[k]) == Some(id);
        assert (a + b)[k] == a[k];
      }
      if id in Sessions(b) {
        var k :| 0 <= k < |b| && SessionOf(b[k]) == Some(id);
        assert (a + b)[|a| + k] == b[k];
      }
    }
  }

  // ----- Finishing and restoring -----

  /** Whether a builder becomes a record. */
  predicate IsListed(builder: Builder)
  {
    builder.id != "" && builder.projectPath != "" && builder.messageCount > 0
  }

  /** The title a record is given; `summarize` shortens a message. */
  function TitleOf(builder: Builder, summarize: string -> string): string
  {
    match builder.title
    case Some(title) => title
    case None => if builder.firstUser.Some? then summarize(builder.firstUser.value) else "claude session"
  }

  function FinishBuilder(builder: Builder, summarize: string -> string, fallbackTime: Option<int>): Option<Record>
  {
    if !IsListed(builder) then None
    else
      var activity := Or(builder.lastActivity, fallbackTime);
      Some(Record(
        builder.id, builder.projectPath, TitleOf(builder, summarize), builder.messageCount,
        if activity.Some? then activity.value else 0, builder.model))
  }

  function FinishClaudeBuilders(
    sessions: map<string, Builder>, summarize: string -> string, fallbackTime: Option<int>): map<string, Record>
  {
    map id | id in sessions && IsListed(sessions[id]) :: FinishBuilder(sessions[id], summarize, fallbackTime).value
  }

  function RestoredBuilder(record: Record): Builder
  {
    Builder(
      record.id, record.projectPath, Some(record.title), None, record.messageCount, Some(record.lastActivity),
      record.model)
  }

  function RestoredBuilders(records: map<string, Record>): map<string, Builder>
  {
    map id | id in records :: RestoredBuilder(records[id])
  }

  /** What the index shows of a session and a rescan has to show as well. */
  datatype Shown = Shown(projectPath: string, messageCount: nat, model: Option<string>)

  function ShownIn(records: map<string, Record>, id: string): Option<Shown>
  {
    if id in records then Some(Shown(records[id].projectPath, records[id].messageCount, records[id].model)) else None
  }

  function View(builder: Builder): Option<Shown>
  {
    if IsListed(builder) then Some(Shown(builder.projectPath, builder.messageCount, builder.model)) else None
  }

  const NOTHING := Shown("", 0, None)

  /** What a builder would show, listed or not. */
  function Told(builder: Builder): Shown
  {
    Shown(builder.projectPath, builder.messageCount, builder.model)
  }

  /** What two stretches of a session would show together. */
  function JoinShown(a: Shown, b: Shown): Shown
  {
    Shown(
      if a.projectPath == "" then b.projectPath else a.projectPath, a.messageCount + b.messageCount,
      Or(a.model, b.model))
  }

  /** The records of one pass over all the lines. */
  function Rescanned(entries: seq<Entry>, summarize: string -> string, fallbackTime: Option<int>): map<string, Record>
  {
    FinishClaudeBuilders(Folded(map[], entries), summarize, fallbackTime)
  }

  /** The records of a resumed pass: the stored ones restored, and the new lines folded in. */
  function Resumed(
    records: map<string, Record>, entries: seq<Entry>, summarize: string -> string,
    fallbackTime: Option<int>): map<string, Record>
  {
    FinishClaudeBuilders(Folded(RestoredBuilders(records), entries), summarize, fallbackTime)
  }

  lemma {:induction false} RescanShows(
    entries: seq<Entry>, id: string, summarize: string -> string, fallbackTime: Option<int>)
    ensures ShownIn(Rescanned(entries, summarize, fallbackTime), id) == View(Gathered(id, entries))
    ensures var records := Rescanned(entries, summarize, fallbackTime);
            id in records ==> id != "" && records[id].id == id
  {
    FoldIsPerSession(map[], entries, id);
    GatheredKeepsId(id, entries);
    hide Folded, Gathered, Sessions;
  }

  lemma {:induction false} ResumeShows(
    records: map<string, Record>, entries: seq<Entry>, id: string, summarize: string -> string,
    fallbackTime: Option<int>)
    ensures ShownIn(Resumed(records, entries, summarize, fallbackTime), id)
              == View(if id in records then Joined(RestoredBuilder(records[id]), Gathered(id, entries))
                      else Gathered(id, entries))
    ensures var resumed := Resumed(records, entries, summarize, fallbackTime);
            id in resumed ==> resumed[id].id != "" && resumed[id].id == if id in records then records[id].id else id
  {
    GatheredKeepsId(id, entries);
    FoldIsPerSession(RestoredBuilders(records), entries, id);
    hide Folded, Gathered, Sessions;
  }

  /** When a session's second stretch leaves the same trace whether or not the first one was kept. */
  predicate LossIsHarmless(first: Builder, second: Builder)
  {
    if first.messageCount > 0 then second.projectPath == ""
    else if first.projectPath != "" then second.messageCount == 0 || second.projectPath == first.projectPath
    else true
  }

  /**
   Resuming from the records of the earlier lines shows a session as a rescan does exactly
   when those lines made a record of it, or nothing they said of it matters to what is shown.
   */
  lemma {:induction false} ResumedShowsRescanIff(
    earlier: seq<Entry>, later: seq<Entry>, id: string, summarize: string -> string, was: Option<int>, now: Option<int>)
    ensures ShownIn(Resumed(Rescanned(earlier, summarize, was), later, summarize, now), id)
              == ShownIn(Rescanned(earlier + later, summarize, now), id)
            <==> IsListed(Gathered(id, earlier)) || LossIsHarmless(Gathered(id, earlier), Gathered(id, later))
  {
    var records := Rescanned(earlier, summarize, was);
    ResumeShows(records, later, id, summarize, now);
    RescanShows(earlier + later, id, summarize, now);
    RescanShows(earlier, id, summarize, was);
    GatheredAppend(id, earlier, later);
    GatheredKeepsId(id, earlier);
    GatheredKeepsId(id, later);
    SessionsAppend(earlier, later);
    FoldIsPerSession(map[], earlier, id);
    hide Gathered, Rescanned, Resumed, Sessions, Folded;
    var first := Gathered(id, earlier);
    assert IsListed(first) ==> id in records && RestoredBuilder(records[id]).messageCount == first.messageCount;
  }

  /** Restored builders have lost the first user message, which counts if there was no title to keep. */
  predicate TitleSurvives(first: Builder, second: Builder, summarize: string -> string)
  {
    first.title.Some? || first.firstUser.Some? || second.title.Some? || second.firstUser.None?
    || summarize(second.firstUser.value) == "claude session"
  }

  /** Restored builders keep a fallback time as if a line had said it. */
  predicate TimeSurvives(first: Builder, second: Builder, was: Option<int>, now: Option<int>)
  {
    first.lastActivity.Some?
    || var fallback := if was.Some? then was.value else 0;
       if second.lastActivity.Some? then fallback <= second.lastActivity.value
       else fallback == if now.Some? then now.value else 0
  }

  lemma {:induction false} RecordSurvivesResume(
    first: Builder, second: Builder, summarize: string -> string, was: Option<int>, now: Option<int>)
    requires first.id == second.id && IsListed(first)
    ensures var record := FinishBuilder(first, summarize, was).value;
            var resumed := FinishBuilder(Joined(RestoredBuilder(record), second), summarize, now);
            var whole := FinishBuilder(Joined(first, second), summarize, now);
            && resumed.Some? && whole.Some?
            && (resumed.value.title == whole.value.title <==> TitleSurvives(first, second, summarize))
            && (resumed.value.lastActivity == whole.value.lastActivity <==> TimeSurvives(first, second, was, now))
            && (resumed == whole <==> TitleSurvives(first, second, summarize) && TimeSurvives(first, second, was, now))
  {
  }

  /**
   All that a record keeps: the one of a session listed before is after a resume the one
   of a rescan exactly if its title and its time are.
   */
  lemma {:induction false} ResumedRecordEqualsIff(
    earlier: seq<Entry>, later: seq<Entry>, id: string, summarize: string -> string, was: Option<int>, now: Option<int>)
    requires IsListed(Gathered(id, earlier))
    ensures var first, second := Gathered(id, earlier), Gathered(id, later);
            var resumed := Resumed(Rescanned(earlier, summarize, was), later, summarize, now);
            var whole := Rescanned(earlier + later, summarize, now);
            && id in resumed && id in whole
            && (resumed[id].title == whole[id].title <==> TitleSurvives(first, second, summarize))
            && (resumed[id].lastActivity == whole[id].lastActivity <==> TimeSurvives(first, second, was, now))
            && (resumed[id] == whole[id]
                <==> TitleSurvives(first, second, summarize) && TimeSurvives(first, second, was, now))
  {
    var first, second := Gathered(id, earlier), Gathered(id, later);
    var records := Rescanned(earlier, summarize, was);
    FoldIsPerSession(map[], earlier, id);
    FoldIsPerSession(map[], earlier + later, id);
    FoldIsPerSession(RestoredBuilders(records), later, id);
    GatheredAppend(id, earlier, later);
    GatheredKeepsId(id, earlier);
    GatheredKeepsId(id, later);
    GatheredKeepsId(id, earlier + later);
    assert records[id] == FinishBuilder(first, summarize, was).value;
    hide Gathered, Folded, Sessions, Joined, TitleOf;
    RecordSurvivesResume(first, second, summarize, was, now);
  }
}
