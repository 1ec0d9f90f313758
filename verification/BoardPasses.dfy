/**
 How parents and levels move from pass to pass. Parents are followed by id, since a
 parent link means the first bearer of its id; levels are followed by their rank, from
 0 for an initiative to 4 for a subtask.
 */
module BoardPasses {
  import opened Wrappers
  import opened Board
  import opened BoardLevels

  ghost function ParentAfter(tasks: seq<Task>, count: nat, i: nat): Option<string>
    requires i < |tasks|
  {
    PassesKeepIds(tasks, count);
    Passes(tasks, count)[i].hierarchy.parentId
  }

  ghost function RankAfter(tasks: seq<Task>, count: nat, i: nat): nat
    requires i < |tasks|
  {
    PassesKeepIds(tasks, count);
    Rank(LevelOf(Passes(tasks, count)[i]))
  }

  /** The parent of the task with the id. */
  ghost function ParentOf(tasks: seq<Task>, count: nat, id: string): Option<string>
  {
    match FindIndex(tasks, id)
    case None => None
    case Some(i) => ParentAfter(tasks, count, i)
  }

  ghost predicate IsSubtaskAfter(tasks: seq<Task>, count: nat, id: string)
  {
    match FindIndex(tasks, id)
    case None => false
    case Some(i) => RankAfter(tasks, count, i) == 4
  }

  /** Where a card goes that is detached from the task with the id. */
  ghost function Beside(tasks: seq<Task>, count: nat, id: string): Option<string>
  {
    if IsSubtaskAfter(tasks, count, id) then ParentOf(tasks, count, id) else None
  }

  /** The task with the id is a system card that comes from the source. */
  predicate IsFrom(tasks: seq<Task>, id: string, source: string)
  {
    match FindIndex(tasks, id)
    case None => false
    case Some(i) => ComesFrom(tasks[i], source)
  }

  lemma {:induction false} FindAfterPasses(tasks: seq<Task>, count: nat, id: string)
    ensures |Passes(tasks, count)| == |tasks|
    ensures FindIndex(Passes(tasks, count), id) == FindIndex(tasks, id)
  {
    PassesKeepIds(tasks, count);
    SameIdsSameIndex(Passes(tasks, count), tasks, id);
  }

  /** A card that stands below one of its sources goes beside it; every other task stays. */
  lemma {:induction false} MoveRule(tasks: seq<Task>, count: nat, i: nat)
    requires i < |tasks|
    ensures var parent := ParentAfter(tasks, count, i);
            ParentAfter(tasks, count + 1, i) ==
            if parent.Some? && ComesFrom(tasks[i], parent.value) then Beside(tasks, count, parent.value) else parent
  {
    PassesAt(tasks, count, i);
    PassesKeepFixed(tasks, count);
    var parent := ParentAfter(tasks, count, i);
    assert ParentAfter(tasks, count + 1, i) == RepairedParent(Passes(tasks, count), Passes(tasks, count)[i]);
    hide Passes, NormalizeTask;
    if parent.Some? {
      RankOfSubtask(Passes(tasks, count), parent.value);
      FindAfterPasses(tasks, count, parent.value);
    }
  }

  lemma {:induction false} RankOfSubtask(tasks: seq<Task>, id: string)
    ensures Find(tasks, id).Some? ==>
          (LevelOf(Find(tasks, id).value) == Subtask <==> Rank(LevelOf(Find(tasks, id).value)) == 4)
  {
  }

  lemma {:induction false} MoveRuleById(tasks: seq<Task>, count: nat, id: string)
    ensures var parent := ParentOf(tasks, count, id);
            ParentOf(tasks, count + 1, id) ==
            if parent.Some? && IsFrom(tasks, id, parent.value) then Beside(tasks, count, parent.value) else parent
  {
    if FindIndex(tasks, id).Some? {
      MoveRule(tasks, count, FindIndex(tasks, id).value);
    }
    hide ParentAfter, RankAfter, FindIndex;
  }

  // ----- Ranks -----

  lemma {:induction false} RankAfterPass(tasks: seq<Task>, count: nat, i: nat)
    requires i < |tasks|
    ensures |Passes(tasks, count)| == |tasks|
    ensures RankAfter(tasks, count + 1, i) == Rank(RepairedLevel(Passes(tasks, count), Passes(tasks, count)[i]))
  {
    PassesAt(tasks, count, i);
    NormalizedTaskIsTidy(Passes(tasks, count), Passes(tasks, count)[i]);
    hide Passes, NormalizeTask;
  }

  /** Once level texts are canonical, a task that no parent decides keeps its level, even when it has just moved. */
  lemma {:induction false} OwnLevelIsKept(tasks: seq<Task>, count: nat, i: nat)
    requires i < |tasks| && count > 0
    ensures |Passes(tasks, count)| == |tasks|
    ensures OwnLevel(Passes(tasks, count)[i], ParentAfter(tasks, count + 1, i)) == LevelOf(Passes(tasks, count)[i])
  {
    PassesAt(tasks, count - 1, i);
    PassesKeepFixed(tasks, count);
    PassesKeepFixed(tasks, count - 1);
    MoveRule(tasks, count, i);
    var before, task := Passes(tasks, count - 1), Passes(tasks, count)[i];
    NormalizedTaskIsTidy(before, before[i]);
    LevelNamesRoundTrip(LevelOf(task), Subtask);
    LevelNamesRoundTrip(LevelOf(task), Story);
    if ParentAfter(tasks, count + 1, i).None? && !SourceLinkIsStructural(task) {
      RootLevelIsHigh(before, before[i]);
    }
    hide Passes, NormalizeTask, NormalizeLevel, LevelName;
  }

  /** A pass leaves no task or subtask without a parent, other than system cards. */
  lemma {:induction false} RootLevelIsHigh(snapshot: seq<Task>, task: Task)
    requires RepairedParent(snapshot, task).None? && !SourceLinkIsStructural(task)
    ensures RepairedLevel(snapshot, task) !in {TaskLevel, Subtask}
  {
    hide NormalizeLevel;
  }

  /** The position of the task that decides the level: the parent after the pass, unless it is a subtask before it. */
  ghost function DecidingIndex(tasks: seq<Task>, count: nat, i: nat): (index: Option<nat>)
    requires i < |tasks|
    ensures index.Some? ==> index.value < |tasks| && RankAfter(tasks, count, index.value) < 4
  {
    var parent := ParentAfter(tasks, count + 1, i);
    var index := if parent.None? then None else FindIndex(tasks, parent.value);
    if index.Some? && RankAfter(tasks, count, index.value) < 4 then index else None
  }

  /** In one pass a parent above the lowest level decides its child's rank; otherwise the child keeps its own. */
  lemma {:induction false} RankStep(tasks: seq<Task>, count: nat, i: nat)
    requires i < |tasks|
    ensures var index := DecidingIndex(tasks, count, i);
            if index.Some? then RankAfter(tasks, count + 1, i) == RankAfter(tasks, count, index.value) + 1
            else count > 0 ==> RankAfter(tasks, count + 1, i) == RankAfter(tasks, count, i)
  {
    RankAfterPass(tasks, count, i);
    PassesAt(tasks, count, i);
    var now, parent := Passes(tasks, count), ParentAfter(tasks, count + 1, i);
    assert parent == RepairedParent(now, now[i]);
    if parent.Some? {
      FindAfterPasses(tasks, count, parent.value);
      if FindIndex(tasks, parent.value).Some? {
        NextLevelIsNextRank(LevelOf(now[FindIndex(tasks, parent.value).value]));
      }
    }
    if count > 0 {
      OwnLevelIsKept(tasks, count, i);
    }
    hide Passes, NormalizeTask, OwnLevel;
  }

  /** Every level is written by its own name; from the first pass on this is always so. */
  ghost predicate IsCanonical(board: seq<Task>)
  {
    forall i | 0 <= i < |board| :: board[i].hierarchy.level == LevelName(LevelOf(board[i]))
  }

  lemma {:induction false} CanonicalLevelIsKept(board: seq<Task>, i: nat)
    requires i < |board| && IsCanonical(board) && ParentAfter(board, 1, i).Some?
    requires DecidingIndex(board, 0, i).None?
    ensures RankAfter(board, 1, i) == RankAfter(board, 0, i)
  {
    RankAfterPass(board, 0, i);
    PassesAt(board, 0, i);
    assert Passes(board, 0) == board;
    var parentId := ParentAfter(board, 1, i).value;
    assert RepairedParent(board, board[i]) == Some(parentId);
    if FindIndex(board, parentId).Some? {
      NextLevelIsNextRank(LevelOf(board[FindIndex(board, parentId).value]));
    }
    LevelNamesRoundTrip(LevelOf(board[i]), Subtask);
    hide Passes, NormalizeTask, NormalizeLevel, LevelName;
  }

  /** Below a subtask a task stays a subtask, or stays none. */
  lemma {:induction false} BelowSubtaskIsKept(tasks: seq<Task>, count: nat, id: string, parentId: string)
    requires count > 0 || IsCanonical(tasks)
    requires ParentOf(tasks, count + 1, id) == Some(parentId) && IsSubtaskAfter(tasks, count, parentId)
    ensures IsSubtaskAfter(tasks, count + 1, id) <==> IsSubtaskAfter(tasks, count, id)
  {
    hide RankAfter, ParentAfter, FindIndex, IsCanonical;
    var i := FindIndex(tasks, id).value;
    if count > 0 {
      RankStep(tasks, count, i);
    } else {
      CanonicalLevelIsKept(tasks, i);
    }
  }

  /**
   A rank that still changes in pass `count + 1` was passed down, from a parent that
   changed one pass earlier, or to a card that moved away from below a subtask; so it
   has grown to at least `count`.
   */
  lemma {:induction false} LateChangesAreLow(tasks: seq<Task>, count: nat, i: nat)
    requires i < |tasks| && 0 < count <= 4
    requires RankAfter(tasks, count + 1, i) != RankAfter(tasks, count, i)
    ensures RankAfter(tasks, count + 1, i) >= count
  {
    hide RankAfter, ParentAfter, FindIndex;
    RankStep(tasks, count, i);
    var parent := DecidingIndex(tasks, count, i).value;
    if count > 1 {
      if RankAfter(tasks, count, parent) != RankAfter(tasks, count - 1, parent) {
        LateChangesAreLow(tasks, count - 1, parent);
      } else {
        RankStep(tasks, count - 1, i);
        assert ParentAfter(tasks, count + 1, i) != ParentAfter(tasks, count, i);
        MovedBelowTaskLevel(tasks, count, i);
      }
    }
  }

  /** A card that moves away from a subtask to a parent whose rank has just been the same becomes a subtask. */
  lemma {:induction false} MovedBelowTaskLevel(tasks: seq<Task>, count: nat, i: nat)
    requires i < |tasks| && count > 1 && DecidingIndex(tasks, count, i).Some?
    requires ParentAfter(tasks, count + 1, i) != ParentAfter(tasks, count, i)
    requires var parent := DecidingIndex(tasks, count, i).value;
             RankAfter(tasks, count, parent) == RankAfter(tasks, count - 1, parent)
    ensures RankAfter(tasks, count + 1, i) == 4
  {
    hide RankAfter, ParentAfter, FindIndex;
    MoveRule(tasks, count, i);
    RankStep(tasks, count, i);
    var source := FindIndex(tasks, ParentAfter(tasks, count, i).value).value;
    RankStep(tasks, count - 1, source);
  }
}
