/**
 What the normalisation leaves in each field of a task, told on the board handed in and
 in the terms of the fields themselves.
 */
module BoardFields {
  import opened Wrappers
  import opened Text
  import opened Board
  import opened BoardApproval
  import opened BoardLevels
  import opened BoardPasses
  import opened BoardSwings
  import opened BoardSecondRepair
  import opened BoardConvergence

  // ----- Dependencies -----

  /** The id is the nonempty trimming of one of the items. */
  ghost predicate IsNamedIn(items: seq<string>, id: string)
  {
    id != "" && exists k :: 0 <= k < |items| && Trim(items[k]) == id
  }

  lemma {:induction false} DedupeHas(items: seq<string>, seen: set<string>, id: string)
    ensures id in DedupeFrom(items, seen) <==> IsNamedIn(items, id) && id !in seen
  {
    hide Trim;
    if items != [] {
      var item := Trim(items[0]);
      DedupeHas(items[1..], if item == "" || item in seen then seen else seen + {item}, id);
      NamedInFirstOrRest(items, id);
    }
  }

  lemma {:induction false} NamedInFirstOrRest(items: seq<string>, id: string)
    requires items != []
    ensures IsNamedIn(items, id) <==> id != "" && (Trim(items[0]) == id || IsNamedIn(items[1..], id))
  {
    hide Trim;
    if k :| 0 <= k < |items| && Trim(items[k]) == id {
      assert k > 0 ==> items[1..][k - 1] == items[k];
    }
    if k :| 0 <= k < |items[1..]| && Trim(items[1..][k]) == id {
      assert items[k + 1] == items[1..][k];
    }
  }

  /** The first id is named before the second one. */
  ghost predicate IsNamedBefore(items: seq<string>, first: string, second: string)
  {
    exists p :: 0 <= p < |items| && Trim(items[p]) == first && forall q | 0 <= q <= p :: Trim(items[q]) != second
  }

  lemma {:induction false} DedupeKeepsOrder(items: seq<string>, seen: set<string>, j: nat, k: nat)
    requires j < k < |DedupeFrom(items, seen)|
    ensures IsNamedBefore(items, DedupeFrom(items, seen)[j], DedupeFrom(items, seen)[k])
  {
    hide Trim;
    var item, ids := Trim(items[0]), DedupeFrom(items, seen);
    if item == "" || item in seen {
      DedupeKeepsOrder(items[1..], seen, j, k);
      DedupeHas(items[1..], seen, ids[k]);
      NamedBeforeInRest(items, ids[j], ids[k]);
    } else {
      DedupeHas(items[1..], seen + {item}, ids[k]);
      if j == 0 {
        assert Trim(items[0]) == ids[0];
      } else {
        DedupeKeepsOrder(items[1..], seen + {item}, j - 1, k - 1);
        NamedBeforeInRest(items, ids[j], ids[k]);
      }
    }
  }

  lemma {:induction false} NamedBeforeInRest(items: seq<string>, first: string, second: string)
    requires items != [] && Trim(items[0]) != second && IsNamedBefore(items[1..], first, second)
    ensures IsNamedBefore(items, first, second)
  {
    hide Trim;
    var p :| 0 <= p < |items[1..]| && Trim(items[1..][p]) == first
             && forall q | 0 <= q <= p :: Trim(items[1..][q]) != second;
    assert Trim(items[p + 1]) == first;
    forall q | 0 <= q <= p + 1
      ensures Trim(items[q]) != second
    {
      assert q > 0 ==> items[q] == items[1..][q - 1];
    }
  }

  lemma {:induction false} DependenciesAfter(tasks: seq<Task>, count: nat, i: nat)
    requires i < |tasks| && count > 0
    ensures |Passes(tasks, count)| == |tasks|
    ensures var ids := DedupeStrings(tasks[i].hierarchy.blockedBy + tasks[i].dependsOn);
            Passes(tasks, count)[i].hierarchy.blockedBy == ids && Passes(tasks, count)[i].dependsOn == ids
  {
    PassesAt(tasks, count - 1, i);
    if count > 1 {
      DependenciesAfter(tasks, count - 1, i);
      DedupeIsStable(tasks[i].hierarchy.blockedBy + tasks[i].dependsOn);
    } else {
      assert Passes(tasks, 0) == tasks;
    }
    hide Passes, RepairedParent, RepairedLevel, DedupeStrings;
  }

  /**
   No prerequisite is lost and none invented: both lists of the normalised task hold
   exactly the nonempty trimmings of the items in either list before, each once, in the
   order in which they are first named.
   */
  lemma {:induction false} DependenciesSurvive(tasks: seq<Task>, i: nat)
    requires i < |tasks|
    ensures |Normalized(tasks)| == |tasks|
    ensures var items, after := tasks[i].hierarchy.blockedBy + tasks[i].dependsOn, Normalized(tasks)[i];
            && after.hierarchy.blockedBy == after.dependsOn
            && (forall id :: id in after.dependsOn <==>
                  id != "" && exists k :: 0 <= k < |items| && Trim(items[k]) == id)
            && (forall j, k | 0 <= j < k < |after.dependsOn| ::
                  && after.dependsOn[j] != after.dependsOn[k]
                  && IsNamedBefore(items, after.dependsOn[j], after.dependsOn[k]))
  {
    hide Trim, Normalized, Passes, DedupeStrings;
    NormalizedIsShaped(tasks, i);
    DependenciesAfter(tasks, 5, i);
    DedupeMeans(tasks[i].hierarchy.blockedBy + tasks[i].dependsOn);
  }

  lemma {:induction false} DedupeMeans(items: seq<string>)
    ensures var ids := DedupeStrings(items);
            && (forall id :: id in ids <==> id != "" && exists k :: 0 <= k < |items| && Trim(items[k]) == id)
            && (forall j, k | 0 <= j < k < |ids| :: ids[j] != ids[k] && IsNamedBefore(items, ids[j], ids[k]))
  {
    hide Trim, DedupeFrom;
    var ids := DedupeStrings(items);
    DedupeIsDeduped(items, {});
    forall id
      ensures id in ids <==> IsNamedIn(items, id)
    {
      DedupeHas(items, {}, id);
    }
    forall j, k | 0 <= j < k < |ids|
      ensures ids[j] != ids[k] && IsNamedBefore(items, ids[j], ids[k])
    {
      DedupeKeepsOrder(items, {}, j, k);
    }
  }

  lemma {:induction false} NormalizedIsShaped(tasks: seq<Task>, i: nat)
    requires i < |tasks|
    ensures |Normalized(tasks)| == |Passes(tasks, 5)| == |tasks|
    ensures SameShape(Passes(tasks, 5)[i], Normalized(tasks)[i])
  {
    PassesKeepIds(tasks, 5);
    hide Passes, Repaired;
    RepairedSameShapes(Passes(tasks, 5));
  }

  // ----- The other fields -----

  ghost predicate AllKeepRest(after: seq<Task>, before: seq<Task>)
  {
    && |after| == |before|
    && forall i | 0 <= i < |after| :: IsNormalizedFrom(after[i], before[i]) && SameWork(after[i], before[i])
  }

  lemma {:induction false} PassesKeepRest(tasks: seq<Task>, count: nat)
    requires count > 0
    ensures AllKeepRest(Passes(tasks, count), tasks)
  {
    if count == 1 {
      assert Passes(tasks, 1) == Pass(Passes(tasks, 0)) == Pass(tasks);
      PassKeepsRest(tasks);
    } else {
      hide AllKeepRest, Pass;
      PassesKeepRest(tasks, count - 1);
      PassKeepsRest(Passes(tasks, count - 1));
      KeepRestComposes(Passes(tasks, count), Passes(tasks, count - 1), tasks);
    }
  }

  lemma {:induction false} PassKeepsRest(tasks: seq<Task>)
    ensures AllKeepRest(Pass(tasks), tasks)
  {
    hide NormalizeTask, IsNormalizedFrom, SameWork;
    forall i | 0 <= i < |tasks|
      ensures IsNormalizedFrom(Pass(tasks)[i], tasks[i]) && SameWork(Pass(tasks)[i], tasks[i])
    {
      NormalizeTaskKeepsRest(tasks, tasks[i]);
    }
  }

  lemma {:induction false} KeepRestComposes(a: seq<Task>, b: seq<Task>, c: seq<Task>)
    requires AllKeepRest(a, b) && AllKeepRest(b, c)
    ensures AllKeepRest(a, c)
  {
    forall i | 0 <= i < |a|
      ensures IsNormalizedFrom(a[i], c[i]) && SameWork(a[i], c[i])
    {
      assert IsNormalizedFrom(a[i], b[i]) && IsNormalizedFrom(b[i], c[i]);
    }
  }

  /** What no part of the normalisation touches, and the two fields of a task that has no scope yet. */
  predicate IsNormalizedFrom(after: Task, before: Task)
  {
    && after.id == before.id && after.supersededBy == before.supersededBy
    && after.sourceTaskId == before.sourceTaskId && after.sourceQaTaskId == before.sourceQaTaskId
    && after.systemCard == before.systemCard && after.internalValidation == before.internalValidation
    && after.isResearch == before.isResearch && after.hierarchy.researchAccepted == before.hierarchy.researchAccepted
    && after.hierarchy.scopeVersion == (if before.hierarchy.scopeVersion == 0 then 1 else before.hierarchy.scopeVersion)
    && (after.hierarchy.required <==> before.hierarchy.scopeVersion == 0 || before.hierarchy.required)
  }

  /** How far the task's work has come. */
  predicate SameWork(after: Task, before: Task)
  {
    && after.status == before.status && after.error == before.error && after.startedAt == before.startedAt
    && after.completedAt == before.completedAt && after.providerSessionId == before.providerSessionId
  }

  lemma {:induction false} NormalizeTaskKeepsRest(snapshot: seq<Task>, task: Task)
    ensures IsNormalizedFrom(NormalizeTask(snapshot, task), task) && SameWork(NormalizeTask(snapshot, task), task)
  {
    hide RepairedParent, RepairedLevel, DedupeStrings, LevelName;
  }

  /** The work of a blocked task is reset, and its error says which parent stopped it and why. */
  predicate IsBlockedFor(after: Task, parentId: string, reason: string)
  {
    && after.status == "blocked" && after.startedAt == None && after.completedAt == None
    && after.providerSessionId == None
    && after.error == Some(
         "Parent " + parentId + " is not approved (" + reason + "); approve the parent before running this item.")
  }

  /** The repair either leaves a task as it was or blocks it, and touches nothing but its work. */
  lemma {:induction false} RepairTouchesWorkOnly(tasks: seq<Task>, i: nat)
    requires i < |tasks|
    ensures var before, after := tasks[i], Repaired(tasks)[i];
            && before.(status := after.status, error := after.error, startedAt := after.startedAt,
                       completedAt := after.completedAt, providerSessionId := after.providerSessionId) == after
            && (SameWork(after, before)
                || exists obstacle: Obstacle :: IsBlockedFor(after, obstacle.parentId, obstacle.reason))
  {
    hide BlockEach, Invalid, LastObstacle, IsFirstBearer;
    RepairedExactly(tasks, |tasks|, i);
    var obstacle := LastObstacle(tasks, |tasks|, tasks[i].id);
    if IsFirstBearer(tasks, i) && obstacle.Some? {
      BlockMeans(tasks[i], obstacle.value);
    }
  }

  lemma {:induction false} BlockMeans(task: Task, obstacle: Obstacle)
    ensures IsBlockedFor(Block(task, obstacle), obstacle.parentId, obstacle.reason)
  {
    assert BlockReason(obstacle) ==
      "Parent " + obstacle.parentId + " is not approved (" + obstacle.reason
        + "); approve the parent before running this item.";
  }

  /** All fields of a normalised task but its dependencies, its parent and its level. */
  lemma {:induction false} NormalizedKeepsRest(tasks: seq<Task>, i: nat)
    requires i < |tasks|
    ensures |Normalized(tasks)| == |tasks|
    ensures var before, after := tasks[i], Normalized(tasks)[i];
            && IsNormalizedFrom(after, before)
            && (SameWork(after, before)
                || exists obstacle: Obstacle :: IsBlockedFor(after, obstacle.parentId, obstacle.reason))
  {
    PassesKeepRest(tasks, 5);
    PassesKeepIds(tasks, 5);
    RepairTouchesWorkOnly(Passes(tasks, 5), i);
    hide Passes, Repaired, IsBlockedFor;
  }

  // ----- Levels -----

  /** The text is the level's name, up to capitals and surrounding white space. */
  ghost predicate SpellsLevel(text: string, level: Level)
  {
    var name, trimmed := LevelName(level), Trim(text);
    |trimmed| == |name| && forall k | 0 <= k < |name| :: IsLetterOf(trimmed[k], name[k])
  }

  /** The small letter itself, or its capital. */
  predicate IsLetterOf(c: char, small: char)
  {
    c == small || ('A' <= c <= 'Z' && c as int + 32 == small as int)
  }

  lemma {:induction false} FoldReads(s: string, name: string)
    requires forall k | 0 <= k < |name| :: 'a' <= name[k] <= 'z'
    ensures Fold(s) == name <==> |s| == |name| && forall k | 0 <= k < |name| :: IsLetterOf(s[k], name[k])
  {
    if s != [] && name != [] {
      FoldReads(s[1..], name[1..]);
      FoldLength(s);
      FoldLength(s[1..]);
      assert Fold(s) == [FoldChar(s[0])] + Fold(s[1..]) && name == [name[0]] + name[1..];
      assert FoldChar(s[0]) == name[0] <==> IsLetterOf(s[0], name[0]);
      assert Fold(s) == name ==> Fold(s)[1..] == name[1..];
      if |s| == |name| && forall k | 0 <= k < |name| :: IsLetterOf(s[k], name[k]) {
        assert forall k | 0 <= k < |name[1..]| :: IsLetterOf(s[1..][k], name[1..][k]);
      }
      if Fold(s) == name {
        assert forall k | 0 < k < |name| :: s[k] == s[1..][k - 1] && name[k] == name[1..][k - 1];
      }
    } else {
      FoldLength(s);
    }
  }

  lemma {:induction false} FoldLength(s: string)
    ensures |Fold(s)| == |s|
  {
    if s != [] {
      FoldLength(s[1..]);
    }
  }

  /** A level is read from its name in any capitals and with space around it, and from nothing else. */
  lemma {:induction false} LevelIsReadIff(text: string, default: Level, level: Level)
    ensures SpellsLevel(text, level) ==> NormalizeLevel(text, default) == level
    ensures (forall other :: !SpellsLevel(text, other)) ==> NormalizeLevel(text, default) == default
  {
    hide Trim, Fold;
    forall other
      ensures SpellsLevel(text, other) <==> Fold(Trim(text)) == LevelName(other)
    {
      LevelNameIsPlain(other);
      FoldReads(Trim(text), LevelName(other));
    }
    hide SpellsLevel;
    ExactLevelIff(Fold(Trim(text)));
    LevelNameIsPlain(level);
  }

  lemma {:induction false} ExactLevelIff(name: string)
    ensures ExactLevel(name).Some? <==> exists level :: name == LevelName(level)
    ensures forall level :: name == LevelName(level) ==> ExactLevel(name) == Some(level)
  {
    forall level | name == LevelName(level)
      ensures ExactLevel(name) == Some(level)
    {
      LevelNameIsPlain(level);
    }
    if ExactLevel(name).Some? {
      assert name == LevelName(ExactLevel(name).value);
    }
  }

  // ----- Parents -----

  /** The task counts as a subtask before any repair: its text says so, or says nothing and it has a parent. */
  predicate ReadsAsSubtask(task: Task)
  {
    || task.hierarchy.level == "subtask"
    || (task.hierarchy.level !in {"initiative", "epic", "story", "task", "subtask"} && task.hierarchy.parentId.Some?)
  }

  /** A system card below one of its sources goes where that source hangs, if it is a subtask; else it is a root. */
  lemma {:induction false} CardGoesBeside(tasks: seq<Task>, i: nat)
    requires i < |tasks|
    ensures var task, parentId := tasks[i], tasks[i].hierarchy.parentId;
            var isSystemCard := task.systemCard || task.sourceQaTaskId.Some?;
            Pass(tasks)[i].hierarchy.parentId ==
            if parentId.Some? && isSystemCard && (parentId == task.sourceTaskId || parentId == task.sourceQaTaskId) then
              var source := Find(tasks, parentId.value);
              if source.Some? && ReadsAsSubtask(source.value) then source.value.hierarchy.parentId else None
            else parentId
  {
    hide RepairedLevel, LevelName, DedupeStrings, Find;
  }

  /** No task on the board decides the level of this one: it is a root or its parent is missing. */
  predicate IsOnItsOwn(tasks: seq<Task>, task: Task)
  {
    !IsDetached(task) && (task.hierarchy.parentId.None? || Find(tasks, task.hierarchy.parentId.value).None?)
  }

  /**
   What becomes of the level text of such a task: it is read if it can be; a root that is
   no system card is at least a story; and with nothing to read, children, system cards
   and internal validations are subtasks and all others stories.
   */
  lemma {:induction false} OwnLevelIsRead(tasks: seq<Task>, i: nat, level: Level)
    requires i < |tasks| && IsOnItsOwn(tasks, tasks[i])
    requires
      SpellsLevel(tasks[i].hierarchy.level, level) || forall other :: !SpellsLevel(tasks[i].hierarchy.level, other)
    ensures |Normalized(tasks)| == |tasks|
    ensures var task, isPlainRoot :=
              tasks[i],
              tasks[i].hierarchy.parentId.None? && !tasks[i].systemCard && tasks[i].sourceQaTaskId.None?;
            LevelOf(Normalized(tasks)[i]) ==
            if SpellsLevel(task.hierarchy.level, level) then
              if isPlainRoot && (level == TaskLevel || level == Subtask) then Story else level
            else if isPlainRoot then Story
            else if task.hierarchy.parentId.Some? || task.systemCard || task.internalValidation then Subtask
            else Story
  {
    OwnRankStays(tasks, i, 5);
    NormalizedIsShaped(tasks, i);
    RankAfterPass(tasks, 0, i);
    assert Passes(tasks, 0) == tasks;
    OwnLevelMeans(tasks[i], level);
    RankDeterminesLevel(LevelOf(Normalized(tasks)[i]), OwnLevel(tasks[i], tasks[i].hierarchy.parentId));
    hide SpellsLevel, Normalized, Passes;
  }

  lemma {:induction false} OwnLevelMeans(task: Task, level: Level)
    requires SpellsLevel(task.hierarchy.level, level) || forall other :: !SpellsLevel(task.hierarchy.level, other)
    ensures var isPlainRoot := task.hierarchy.parentId.None? && !task.systemCard && task.sourceQaTaskId.None?;
            OwnLevel(task, task.hierarchy.parentId) ==
            if SpellsLevel(task.hierarchy.level, level) then
              if isPlainRoot && (level == TaskLevel || level == Subtask) then Story else level
            else if isPlainRoot then Story
            else if task.hierarchy.parentId.Some? || task.systemCard || task.internalValidation then Subtask
            else Story
  {
    hide SpellsLevel, NormalizeLevel;
    LevelIsReadIff(task.hierarchy.level, Subtask, level);
    LevelIsReadIff(task.hierarchy.level, Story, level);
  }

  lemma {:induction false} OwnParentStays(tasks: seq<Task>, i: nat, count: nat)
    requires i < |tasks| && IsOnItsOwn(tasks, tasks[i])
    ensures ParentAfter(tasks, count, i) == tasks[i].hierarchy.parentId
  {
    if count > 0 {
      OwnParentStays(tasks, i, count - 1);
      hide ParentAfter;
      MoveRule(tasks, count - 1, i);
    }
  }

  lemma {:induction false} OwnRankStays(tasks: seq<Task>, i: nat, count: nat)
    requires i < |tasks| && IsOnItsOwn(tasks, tasks[i]) && count > 0
    ensures RankAfter(tasks, count, i) == RankAfter(tasks, 1, i)
  {
    if count > 1 {
      hide RankAfter, ParentAfter, IsDetached, FindIndex;
      OwnRankStays(tasks, i, count - 1);
      OwnParentStays(tasks, i, count);
      RankStep(tasks, count - 1, i);
    }
  }

  // ----- Children -----

  const LADDER: seq<string> := ["initiative", "epic", "story", "task", "subtask"]

  lemma {:induction false} LevelTextIsName(tasks: seq<Task>, i: nat)
    requires i < |tasks|
    ensures |Normalized(tasks)| == |tasks|
    ensures var after := Normalized(tasks)[i]; after.hierarchy.level == LevelName(LevelOf(after))
  {
    NormalizedIsShaped(tasks, i);
    var snapshot := Passes(tasks, 4);
    assert Passes(tasks, 5) == Pass(snapshot);
    PassesKeepIds(tasks, 4);
    LevelNameIsPlain(RepairedLevel(snapshot, snapshot[i]));
    hide Passes, Normalized, RepairedLevel, DedupeStrings, LevelName, ExactLevel;
  }

  lemma {:induction false} RungOf(level: Level)
    ensures |LADDER| == 5 && Rank(level) < 5 && LADDER[Rank(level)] == LevelName(level)
  {
  }

  /**
   Every level text of a normalised board is one of the ladder, and if no card will swing,
   a child of a task above the last rung stands exactly one rung below it.
   */
  lemma {:induction false} ChildIsOneRungBelow(tasks: seq<Task>, i: nat)
    requires i < |tasks| && !WillSwing(tasks)
    ensures |Normalized(tasks)| == |tasks|
    ensures var board, task := Normalized(tasks), Normalized(tasks)[i];
            && task.hierarchy.level in LADDER
            && (task.hierarchy.parentId.Some? && Find(board, task.hierarchy.parentId.value).Some? ==>
                  var parent := Find(board, task.hierarchy.parentId.value).value;
                  || parent.hierarchy.level == "subtask"
                  || exists k :: 0 <= k < 4
                       && parent.hierarchy.level == LADDER[k] && task.hierarchy.level == LADDER[k + 1])
  {
    hide Normalized, WillSwing, AncestorsApprove, FailingAreFirst, NextLevel, LevelName, Rank;
    LevelTextIsName(tasks, i);
    NormalizedBoardIsWellFormed(tasks, i);
    RungOf(LevelOf(Normalized(tasks)[i]));
    var board, task := Normalized(tasks), Normalized(tasks)[i];
    if task.hierarchy.parentId.Some? && Find(board, task.hierarchy.parentId.value).Some? {
      var j := FindIndex(board, task.hierarchy.parentId.value).value;
      LevelTextIsName(tasks, j);
      RungOf(LevelOf(board[j]));
      RungOf(Subtask);
      RungBelow(LevelOf(board[j]), LevelOf(task));
      hide LevelOf, FindIndex;
    }
  }

  lemma {:induction false} RungBelow(above: Level, level: Level)
    ensures NextLevel(above).Some? <==> above != Subtask
    ensures Rank(above) < 4 <==> above != Subtask
    ensures LevelName(Subtask) == "subtask"
    ensures NextLevel(above) == Some(level) ==> Rank(level) == Rank(above) + 1
  {
  }
}
