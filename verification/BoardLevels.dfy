/**
 Repairing parents and levels of the hierarchy: one pass over a snapshot, and several
 passes, each over a snapshot of the last.
 */
module BoardLevels {
  import opened Wrappers
  import opened Text
  import opened Board
  import opened BoardApproval

  // ----- Levels -----

  datatype Level = Initiative | Epic | Story | TaskLevel | Subtask

  function Rank(level: Level): nat
  {
    match level
    case Initiative => 0
    case Epic => 1
    case Story => 2
    case TaskLevel => 3
    case Subtask => 4
  }

  function LevelName(level: Level): string
  {
    match level
    case Initiative => "initiative"
    case Epic => "epic"
    case Story => "story"
    case TaskLevel => "task"
    case Subtask => "subtask"
  }

  function ExactLevel(name: string): Option<Level>
  {
    if name == "initiative" then Some(Initiative)
    else if name == "epic" then Some(Epic)
    else if name == "story" then Some(Story)
    else if name == "task" then Some(TaskLevel)
    else if name == "subtask" then Some(Subtask)
    else None
  }

  function FoldChar(c: char): char
  {
    if 'A' <= c <= 'Z' then (c as int - 'A' as int + 'a' as int) as char
    else if c == '-' || c == ' ' then '_'
    else c
  }

  function Fold(s: string): string
  {
    if s == [] then [] else [FoldChar(s[0])] + Fold(s[1..])
  }

  /** Accepts other spellings of a level name: surrounding space, capitals, dashes. */
  function NormalizeLevel(value: string, default: Level): Level
  {
    match ExactLevel(Fold(Trim(value)))
    case Some(level) => level
    case None => default
  }

  function LevelOf(task: Task): Level
  {
    match ExactLevel(task.hierarchy.level)
    case Some(level) => level
    case None => if task.hierarchy.parentId.Some? then Subtask else Story
  }

  function NextLevel(level: Level): Option<Level>
  {
    match level
    case Initiative => Some(Epic)
    case Epic => Some(Story)
    case Story => Some(TaskLevel)
    case TaskLevel => Some(Subtask)
    case Subtask => None
  }

  lemma {:induction false} FoldKeepsLowerCase(s: string)
    requires forall i | 0 <= i < |s| :: 'a' <= s[i] <= 'z'
    ensures Fold(s) == s
  {
    if s != [] {
      FoldKeepsLowerCase(s[1..]);
    }
  }

  lemma {:induction false} LevelNameIsPlain(level: Level)
    ensures ExactLevel(LevelName(level)) == Some(level)
    ensures LevelName(level) != []
    ensures forall i | 0 <= i < |LevelName(level)| :: 'a' <= LevelName(level)[i] <= 'z'
  {
  }

  lemma {:induction false} LevelNamesRoundTrip(level: Level, default: Level)
    ensures ExactLevel(LevelName(level)) == Some(level)
    ensures Trim(LevelName(level)) == LevelName(level)
    ensures NormalizeLevel(LevelName(level), default) == level
  {
    LevelNameIsPlain(level);
    TrimKeeps(LevelName(level));
    FoldKeepsLowerCase(LevelName(level));
    hide LevelName;
  }

  // ----- Dependency lists -----

  /** The trimmed, nonempty items not yet seen, each once, in order. */
  function DedupeFrom(items: seq<string>, seen: set<string>): seq<string>
  {
    if items == [] then []
    else
      var item := Trim(items[0]);
      if item == "" || item in seen then DedupeFrom(items[1..], seen)
      else [item] + DedupeFrom(items[1..], seen + {item})
  }

  function DedupeStrings(items: seq<string>): seq<string>
  {
    DedupeFrom(items, {})
  }

  ghost predicate IsDeduped(items: seq<string>, seen: set<string>)
  {
    && (forall k | 0 <= k < |items| :: Trim(items[k]) == items[k] != "" && items[k] !in seen)
    && (forall j, k | 0 <= j < k < |items| :: items[j] != items[k])
  }

  lemma {:induction false} DedupeIsDeduped(items: seq<string>, seen: set<string>)
    ensures IsDeduped(DedupeFrom(items, seen), seen)
  {
    if items != [] {
      var item := Trim(items[0]);
      TrimIsIdempotent(items[0]);
      if item == "" || item in seen {
        DedupeIsDeduped(items[1..], seen);
      } else {
        DedupeIsDeduped(items[1..], seen + {item});
      }
    }
  }

  /** A clean list is kept, and a second list of the same items adds nothing. */
  lemma {:induction false} DedupeKeepsClean(items: seq<string>, more: seq<string>, seen: set<string>)
    requires IsDeduped(items, seen)
    requires forall k | 0 <= k < |more| :: Trim(more[k]) in seen || Trim(more[k]) in items
    ensures DedupeFrom(items + more, seen) == items
  {
    if items == [] {
      assert items + more == more;
      if more != [] {
        DedupeKeepsClean([], more[1..], seen);
        assert [] + more[1..] == more[1..];
      }
    } else {
      assert (items + more)[1..] == items[1..] + more;
      DedupeKeepsClean(items[1..], more, seen + {items[0]});
    }
  }

  lemma {:induction false} DedupeIsStable(items: seq<string>)
    ensures DedupeStrings(DedupeStrings(items) + DedupeStrings(items)) == DedupeStrings(items)
  {
    DedupeIsDeduped(items, {});
    DedupeKeepsClean(DedupeStrings(items), DedupeStrings(items), {});
  }

  // ----- One pass -----

  predicate SourceLinkIsStructural(task: Task)
  {
    task.systemCard || task.sourceQaTaskId.Some?
  }

  /** A system card that one of its source links ties to the id. */
  predicate ComesFrom(task: Task, id: string)
  {
    SourceLinkIsStructural(task) && (task.sourceTaskId == Some(id) || task.sourceQaTaskId == Some(id))
  }

  /** A system card whose parent was copied from one of its source links. */
  predicate IsDetached(task: Task)
  {
    task.hierarchy.parentId.Some? && ComesFrom(task, task.hierarchy.parentId.value)
  }

  /** A detached card becomes a sibling of a subtask it came from, or a root. */
  function RepairedParent(snapshot: seq<Task>, task: Task): Option<string>
  {
    if IsDetached(task) then
      var sourceId :=
        if task.sourceTaskId == task.hierarchy.parentId then task.sourceTaskId else task.sourceQaTaskId;
      match Find(snapshot, sourceId.value)
      case None => None
      case Some(source) => if LevelOf(source) == Subtask then source.hierarchy.parentId else None
    else task.hierarchy.parentId
  }

  function LevelFromParent(snapshot: seq<Task>, parentId: Option<string>): Option<Level>
  {
    if parentId.None? then None
    else
      match Find(snapshot, parentId.value)
      case None => None
      case Some(parent) => NextLevel(LevelOf(parent))
  }

  /** The level a task asks for itself, when no parent on the board decides it. */
  function OwnLevel(task: Task, parentId: Option<string>): Level
  {
    var inferred := if parentId.Some? || task.internalValidation || task.systemCard then Subtask else Story;
    var requested := NormalizeLevel(task.hierarchy.level, inferred);
    if parentId.None? && (requested == TaskLevel || requested == Subtask) && !SourceLinkIsStructural(task)
    then Story
    else requested
  }

  function RepairedLevel(snapshot: seq<Task>, task: Task): Level
  {
    var parentId := RepairedParent(snapshot, task);
    match LevelFromParent(snapshot, parentId)
    case Some(level) => level
    case None => OwnLevel(task, parentId)
  }

  function NormalizeTask(snapshot: seq<Task>, task: Task): Task
  {
    var level := RepairedLevel(snapshot, task);
    var isNew := task.hierarchy.scopeVersion == 0;
    var blockedBy := DedupeStrings(task.hierarchy.blockedBy + task.dependsOn);
    task.(
      dependsOn := blockedBy,
      hierarchy := task.hierarchy.(
        parentId := RepairedParent(snapshot, task),
        level := LevelName(level),
        executable := level == Subtask,
        scopeVersion := if isNew then 1 else task.hierarchy.scopeVersion,
        required := isNew || task.hierarchy.required,
        blockedBy := blockedBy))
  }

  function Pass(tasks: seq<Task>): seq<Task>
  {
    seq(|tasks|, i requires 0 <= i < |tasks| => NormalizeTask(tasks, tasks[i]))
  }

  function Passes(tasks: seq<Task>, count: nat): seq<Task>
  {
    if count == 0 then tasks else Pass(Passes(tasks, count - 1))
  }

  // ----- What every pass keeps -----

  lemma {:induction false} PassesKeepIds(tasks: seq<Task>, count: nat)
    ensures SameIds(Passes(tasks, count), tasks)
  {
    if count > 0 {
      PassesKeepIds(tasks, count - 1);
    }
  }

  /** What no pass touches: status, source links, and the marks that make these structural. */
  predicate SameFixed(a: Task, b: Task)
  {
    && a.sourceTaskId == b.sourceTaskId && a.sourceQaTaskId == b.sourceQaTaskId
    && a.systemCard == b.systemCard && a.internalValidation == b.internalValidation
    && a.status == b.status
  }

  lemma {:induction false} NormalizeKeepsFixed(snapshot: seq<Task>, task: Task)
    ensures SameFixed(NormalizeTask(snapshot, task), task)
  {
    hide RepairedParent, RepairedLevel;
  }

  ghost predicate SameFixedAll(a: seq<Task>, b: seq<Task>)
  {
    |a| == |b| && forall i | 0 <= i < |a| :: SameFixed(a[i], b[i])
  }

  lemma {:induction false} PassKeepsFixed(tasks: seq<Task>, original: seq<Task>)
    requires SameFixedAll(tasks, original)
    ensures SameFixedAll(Pass(tasks), original)
  {
    hide NormalizeTask;
    forall i | 0 <= i < |tasks|
      ensures SameFixed(Pass(tasks)[i], original[i])
    {
      NormalizeKeepsFixed(tasks, tasks[i]);
    }
  }

  lemma {:induction false} PassesKeepFixed(tasks: seq<Task>, count: nat)
    ensures SameFixedAll(Passes(tasks, count), tasks)
  {
    if count > 0 {
      hide SameFixedAll, Pass;
      PassesKeepFixed(tasks, count - 1);
      PassKeepsFixed(Passes(tasks, count - 1), tasks);
    }
  }

  /** What the repair has put in order, so that repairing it again does nothing. */
  ghost predicate IsTidy(task: Task)
  {
    && task.hierarchy.level == LevelName(LevelOf(task))
    && (task.hierarchy.executable <==> LevelOf(task) == Subtask)
    && task.hierarchy.scopeVersion > 0
    && task.dependsOn == task.hierarchy.blockedBy
    && DedupeStrings(task.hierarchy.blockedBy + task.dependsOn) == task.hierarchy.blockedBy
  }

  lemma {:induction false} NormalizedTaskIsTidy(snapshot: seq<Task>, task: Task)
    ensures IsTidy(NormalizeTask(snapshot, task))
    ensures LevelOf(NormalizeTask(snapshot, task)) == RepairedLevel(snapshot, task)
  {
    LevelNamesRoundTrip(RepairedLevel(snapshot, task), Story);
    DedupeIsStable(task.hierarchy.blockedBy + task.dependsOn);
  }

  lemma {:induction false} TidyTaskIsKept(snapshot: seq<Task>, task: Task)
    requires IsTidy(task) && RepairedParent(snapshot, task) == task.hierarchy.parentId
    requires RepairedLevel(snapshot, task) == LevelOf(task)
    ensures NormalizeTask(snapshot, task) == task
  {
  }

  lemma {:induction false} RankDeterminesLevel(a: Level, b: Level)
    requires Rank(a) == Rank(b)
    ensures a == b
  {
  }

  /** A repaired task is repaired again to itself, if its parent and its level stay. */
  lemma {:induction false} RepairAgainIsKept(before: seq<Task>, task: Task, now: seq<Task>, repaired: Task)
    requires repaired == NormalizeTask(before, task)
    requires RepairedParent(now, repaired) == RepairedParent(before, task)
    requires Rank(RepairedLevel(now, repaired)) == Rank(LevelOf(repaired))
    ensures NormalizeTask(now, repaired) == repaired
  {
    NormalizedTaskIsTidy(before, task);
    RankDeterminesLevel(RepairedLevel(now, repaired), LevelOf(repaired));
    TidyTaskIsKept(now, repaired);
  }

  lemma {:induction false} PassesAt(tasks: seq<Task>, count: nat, i: nat)
    requires i < |tasks|
    ensures |Passes(tasks, count)| == |Passes(tasks, count + 1)| == |tasks|
    ensures Passes(tasks, count + 1)[i] == NormalizeTask(Passes(tasks, count), Passes(tasks, count)[i])
  {
    PassesKeepIds(tasks, count);
  }

  lemma {:induction false} NextLevelIsNextRank(level: Level)
    ensures NextLevel(level).Some? <==> Rank(level) < 4
    ensures NextLevel(level).Some? ==> Rank(NextLevel(level).value) == Rank(level) + 1
  {
  }
}
