/** What the index shows of a session, told line by line of the transcript. */
module ClaudeMeaning {
  import opened Wrappers
  import opened ClaudeSessions

  // ----- What a line says of a session -----

  /** The line belongs to the session, and not to a side chain of it. */
  predicate IsOf(entry: Entry, id: string)
  {
    !entry.isSidechain && entry.sessionId == Some(id)
  }

  predicate IsUserMessage(entry: Entry)
  {
    entry.role == Some("user") && entry.content != "" && entry.isVisibleText
  }

  predicate IsAssistantMessage(entry: Entry)
  {
    entry.role == Some("assistant") && entry.content != ""
  }

  predicate IsMessageOf(entry: Entry, id: string)
  {
    IsOf(entry, id) && (IsUserMessage(entry) || IsAssistantMessage(entry))
  }

  function SaysPath(id: string): Entry -> Option<string>
  {
    entry => if IsOf(entry, id) && entry.cwd != Some("") then entry.cwd else None
  }

  function SaysTitle(id: string): Entry -> Option<string>
  {
    entry => if IsOf(entry, id) then entry.summary else None
  }

  function SaysPrompt(id: string): Entry -> Option<string>
  {
    entry => if IsOf(entry, id) && IsUserMessage(entry) then Some(entry.content) else None
  }

  function SaysModel(id: string): Entry -> Option<string>
  {
    entry => if IsOf(entry, id) && IsAssistantMessage(entry) then entry.model else None
  }

  function SaysTime(id: string): Entry -> Option<int>
  {
    entry => if IsOf(entry, id) then entry.timestamp else None
  }

  // ----- Which of them counts -----

  /** The value is what the first line says that says anything. */
  ghost predicate IsFirstSaid<T(!new)>(entries: seq<Entry>, says: Entry -> Option<T>, value: Option<T>)
  {
    match value
    case None => forall k | 0 <= k < |entries| :: says(entries[k]).None?
    case Some(_) =>
      exists k :: 0 <= k < |entries| && says(entries[k]) == value && forall j | 0 <= j < k :: says(entries[j]).None?
  }

  /** The value is what the last line says that says anything. */
  ghost predicate IsLastSaid<T(!new)>(entries: seq<Entry>, says: Entry -> Option<T>, value: Option<T>)
  {
    match value
    case None => forall k | 0 <= k < |entries| :: says(entries[k]).None?
    case Some(_) =>
      exists k ::
        && 0 <= k < |entries| && says(entries[k]) == value
        && forall j | k < j < |entries| :: says(entries[j]).None?
  }

  /** The value is the greatest that any line says. */
  ghost predicate IsGreatestSaid(entries: seq<Entry>, says: Entry -> Option<int>, value: Option<int>)
  {
    match value
    case None => forall k | 0 <= k < |entries| :: says(entries[k]).None?
    case Some(greatest) =>
      && (exists k :: 0 <= k < |entries| && says(entries[k]) == value)
      && forall k | 0 <= k < |entries| && says(entries[k]).Some? :: says(entries[k]).value <= greatest
  }

  lemma {:induction false} FirstSaidPush<T(!new)>(
    entries: seq<Entry>, entry: Entry, says: Entry -> Option<T>, value: Option<T>)
    requires IsFirstSaid(entries, says, value)
    ensures IsFirstSaid(entries + [entry], says, if value.Some? then value else says(entry))
  {
    var all := entries + [entry];
    if value.Some? {
      var k :| 0 <= k < |entries| && says(entries[k]) == value && forall j | 0 <= j < k :: says(entries[j]).None?;
      assert says(all[k]) == value;
    } else if says(entry).Some? {
      assert says(all[|entries|]) == says(entry);
    }
  }

  lemma {:induction false} LastSaidPush<T(!new)>(
    entries: seq<Entry>, entry: Entry, says: Entry -> Option<T>, value: Option<T>)
    requires IsLastSaid(entries, says, value)
    ensures IsLastSaid(entries + [entry], says, if says(entry).Some? then says(entry) else value)
  {
    var all := entries + [entry];
    if says(entry).Some? {
      assert says(all[|entries|]) == says(entry);
    } else if value.Some? {
      var k :| 0 <= k < |entries| && says(entries[k]) == value
               && forall j | k < j < |entries| :: says(entries[j]).None?;
      assert says(all[k]) == value;
    }
  }

  lemma {:induction false} GreatestSaidPush(
    entries: seq<Entry>, entry: Entry, says: Entry -> Option<int>, value: Option<int>)
    requires IsGreatestSaid(entries, says, value)
    ensures IsGreatestSaid(entries + [entry], says, Latest(value, says(entry)))
  {
    var all := entries + [entry];
    assert says(all[|entries|]) == says(entry);
    if value.Some? {
      var k :| 0 <= k < |entries| && says(entries[k]) == value;
      assert says(all[k]) == value;
    }
  }

  /** The positions of the session's messages. */
  function MessagePositions(entries: seq<Entry>, id: string): set<nat>
  {
    set k: nat | k < |entries| && IsMessageOf(entries[k], id)
  }

  lemma {:induction false} MessagePositionsPush(entries: seq<Entry>, entry: Entry, id: string)
    ensures |MessagePositions(entries + [entry], id)|
         == |MessagePositions(entries, id)| + if IsMessageOf(entry, id) then 1 else 0
  {
    var all := entries + [entry];
    assert MessagePositions(all, id)
        == MessagePositions(entries, id) + if IsMessageOf(entry, id) then {|entries|} else {};
  }

  // ----- What is gathered and shown -----

  /** What the lines say of the session in all. */
  ghost predicate IsWhatIsSaid(builder: Builder, entries: seq<Entry>, id: string)
  {
    && IsFirstSaid(entries, SaysPath(id), if builder.projectPath == "" then None else Some(builder.projectPath))
    && IsLastSaid(entries, SaysTitle(id), builder.title)
    && IsFirstSaid(entries, SaysPrompt(id), builder.firstUser)
    && builder.messageCount == |MessagePositions(entries, id)|
    && IsGreatestSaid(entries, SaysTime(id), builder.lastActivity)
    && IsFirstSaid(entries, SaysModel(id), builder.model)
  }

  lemma {:induction false} TouchMeans(builder: Builder, entry: Entry, id: string)
    ensures
      var next := if IsOf(entry, id) then Touch(builder, entry) else builder;
      && (next.projectPath ==
            if builder.projectPath != "" then builder.projectPath
            else if SaysPath(id)(entry).Some? then SaysPath(id)(entry).value
            else "")
      && next.title == (if SaysTitle(id)(entry).Some? then SaysTitle(id)(entry) else builder.title)
      && next.firstUser == (if builder.firstUser.Some? then builder.firstUser else SaysPrompt(id)(entry))
      && next.messageCount == builder.messageCount + (if IsMessageOf(entry, id) then 1 else 0)
      && next.lastActivity == Latest(builder.lastActivity, SaysTime(id)(entry))
      && next.model == (if builder.model.Some? then builder.model else SaysModel(id)(entry))
      && next.id == builder.id
  {
    if entry.cwd == Some("") {
      assert entry.cwd.value == "";
    }
  }

  lemma {:induction false} GatheredIsWhatIsSaid(id: string, entries: seq<Entry>)
    requires id != ""
    ensures IsWhatIsSaid(Gathered(id, entries), entries, id)
  {
    if entries == [] {
      assert MessagePositions([], id) == {};
    } else {
      var earlier, entry := entries[..|entries| - 1], entries[|entries| - 1];
      var before := Gathered(id, earlier);
      assert earlier + [entry] == entries;
      assert SessionOf(entry) == Some(id) <==> IsOf(entry, id);
      assert Gathered(id, entries) == if IsOf(entry, id) then Touch(before, entry) else before;
      GatheredIsWhatIsSaid(id, earlier);
      TouchMeans(before, entry, id);
      SaidPush(before, earlier, entry, id);
      SaysPathIsNotEmpty(entry, id);
      hide Touch, Gathered, SaysPath, SaysTitle, SaysPrompt, SaysTime, SaysModel, IsMessageOf, MessagePositions;
      hide IsFirstSaid, IsLastSaid, IsGreatestSaid, SessionOf, Latest;
    }
  }

  lemma {:induction false} SaysPathIsNotEmpty(entry: Entry, id: string)
    ensures SaysPath(id)(entry) != Some("")
  {
  }

  lemma {:induction false} SaidPush(builder: Builder, entries: seq<Entry>, entry: Entry, id: string)
    requires IsWhatIsSaid(builder, entries, id)
    ensures
      var all, path := entries + [entry], if builder.projectPath == "" then None else Some(builder.projectPath);
      && IsFirstSaid(all, SaysPath(id), if path.Some? then path else SaysPath(id)(entry))
      && IsLastSaid(all, SaysTitle(id), if SaysTitle(id)(entry).Some? then SaysTitle(id)(entry) else builder.title)
      && IsFirstSaid(all, SaysPrompt(id), if builder.firstUser.Some? then builder.firstUser else SaysPrompt(id)(entry))
      && |MessagePositions(all, id)| == builder.messageCount + (if IsMessageOf(entry, id) then 1 else 0)
      && IsGreatestSaid(all, SaysTime(id), Latest(builder.lastActivity, SaysTime(id)(entry)))
      && IsFirstSaid(all, SaysModel(id), if builder.model.Some? then builder.model else SaysModel(id)(entry))
  {
    hide SaysPath, SaysTitle, SaysPrompt, SaysTime, SaysModel, IsMessageOf, MessagePositions, Latest;
    hide IsFirstSaid, IsLastSaid, IsGreatestSaid;
    FirstSaidPush(entries, entry, SaysPath(id), if builder.projectPath == "" then None else Some(builder.projectPath));
    LastSaidPush(entries, entry, SaysTitle(id), builder.title);
    FirstSaidPush(entries, entry, SaysPrompt(id), builder.firstUser);
    MessagePositionsPush(entries, entry, id);
    GreatestSaidPush(entries, entry, SaysTime(id), builder.lastActivity);
    FirstSaidPush(entries, entry, SaysModel(id), builder.model);
  }

  /**
   The record tells what the lines say; without a summary the first prompt gives the
   title, and without a time the file gives one.
   */
  ghost predicate IsRecordOf(
    record: Record, entries: seq<Entry>, id: string, summarize: string -> string, fallbackTime: Option<int>)
  {
    && record.id == id
    && IsFirstSaid(entries, SaysPath(id), Some(record.projectPath))
    && record.messageCount == |MessagePositions(entries, id)|
    && IsFirstSaid(entries, SaysModel(id), record.model)
    && (|| IsLastSaid(entries, SaysTitle(id), Some(record.title))
        || (&& IsLastSaid(entries, SaysTitle(id), None)
            && exists prompt: Option<string> ::
                 && IsFirstSaid(entries, SaysPrompt(id), prompt)
                 && record.title == if prompt.Some? then summarize(prompt.value) else "claude session"))
    && (|| IsGreatestSaid(entries, SaysTime(id), Some(record.lastActivity))
        || (&& IsGreatestSaid(entries, SaysTime(id), None)
            && record.lastActivity == if fallbackTime.Some? then fallbackTime.value else 0))
  }

  /** A session is listed if the lines name a directory and hold a message, and its record tells what they say. */
  lemma {:induction false} RescannedIsWhatIsSaid(
    entries: seq<Entry>, id: string, summarize: string -> string, fallbackTime: Option<int>)
    ensures var records := Rescanned(entries, summarize, fallbackTime);
            && (id in records <==>
                  && id != "" && MessagePositions(entries, id) != {}
                  && exists k :: 0 <= k < |entries| && SaysPath(id)(entries[k]).Some?)
            && (id in records ==> IsRecordOf(records[id], entries, id, summarize, fallbackTime))
  {
    FoldIsPerSession(map[], entries, id);
    GatheredKeepsId(id, entries);
    SessionsAppend(entries, []);
    var builder := Gathered(id, entries);
    if id != "" {
      GatheredIsWhatIsSaid(id, entries);
      PathIsSaid(builder, entries, id);
    }
    hide Gathered, Folded, Sessions, SaysPath, SaysTitle, SaysPrompt, SaysTime, SaysModel;
    hide IsFirstSaid, IsLastSaid, IsGreatestSaid, MessagePositions;
  }

  lemma {:induction false} PathIsSaid(builder: Builder, entries: seq<Entry>, id: string)
    requires IsWhatIsSaid(builder, entries, id)
    ensures builder.projectPath != "" <==> exists k :: 0 <= k < |entries| && SaysPath(id)(entries[k]).Some?
    ensures builder.messageCount > 0 <==> MessagePositions(entries, id) != {}
  {
    hide SaysPath, IsMessageOf;
  }
}
