/**
 Normalising the hierarchy: five passes, then the approval repair. Five passes reach a
 fixpoint exactly when any number of passes does, which is so on every board, of any
 depth and with cycles too, on which the first pass leaves no swinging card. What one
 pass leaves is told on the board handed in.
 */
module BoardConvergence {
  import opened Wrappers
  import opened Text
  import opened Board
  import opened BoardApproval
  import opened BoardSecondRepair
  import opened BoardLevels
  import opened BoardPasses
  import opened BoardSwings

  // ----- Five passes -----

  /** Apart from parent and level, nothing changes after the first pass. */
  lemma {:induction false} OnlyParentAndLevelChange(tasks: seq<Task>, count: nat, i: nat)
    requires i < |tasks| && count > 0 && !Moves(tasks, count, i)
    requires RankAfter(tasks, count + 1, i) == RankAfter(tasks, count, i)
    ensures |Passes(tasks, count)| == |Passes(tasks, count + 1)| == |tasks|
    ensures Passes(tasks, count + 1)[i] == Passes(tasks, count)[i]
  {
    PassesAt(tasks, count - 1, i);
    PassesAt(tasks, count, i);
    RankAfterPass(tasks, count, i);
    var before, now := Passes(tasks, count - 1), Passes(tasks, count);
    hide Passes, RepairedParent, RepairedLevel, OwnLevel;
    RepairAgainIsKept(before, before[i], now, now[i]);
  }

  /** In the sixth pass a level can change only where a parent does. */
  lemma {:induction false} SixthPassKeepsRanks(tasks: seq<Task>, i: nat)
    requires i < |tasks| && !Moves(tasks, 5, i)
    ensures RankAfter(tasks, 6, i) == RankAfter(tasks, 5, i)
  {
    hide RankAfter, ParentAfter, FindIndex;
    RankStep(tasks, 5, i);
    RankStep(tasks, 4, i);
    if DecidingIndex(tasks, 5, i).Some? {
      var parent := DecidingIndex(tasks, 5, i).value;
      if RankAfter(tasks, 5, parent) != RankAfter(tasks, 4, parent) {
        LateChangesAreLow(tasks, 4, parent);
      }
    }
  }

  /** Five passes reach a fixpoint exactly when the first of them leaves no swinging card. */
  lemma {:induction false} FivePassesConvergeIff(tasks: seq<Task>)
    ensures Pass(Passes(tasks, 5)) == Passes(tasks, 5) <==> !WillSwing(tasks)
  {
    PassesKeepIds(tasks, 5);
    WillSwingIff(tasks);
    assert Passes(tasks, 6) == Pass(Passes(tasks, 5));
    hide Passes, Pass, Swings, WillSwing, Moves;
    if Swings(Pass(tasks)) {
      SwingingNeverSettles(tasks, 5);
    } else {
      forall i | 0 <= i < |tasks|
        ensures |Passes(tasks, 6)| == |Passes(tasks, 5)| == |tasks| && Passes(tasks, 6)[i] == Passes(tasks, 5)[i]
      {
        if Moves(tasks, 5, i) {
          LateMoversSwing(tasks, i);
        }
        SixthPassKeepsRanks(tasks, i);
        OnlyParentAndLevelChange(tasks, 5, i);
      }
      PassesKeepIds(tasks, 6);
    }
  }

  /** So no further passes are ever needed: if any number of them settles a board, five do. */
  lemma {:induction false} FivePassesSuffice(tasks: seq<Task>, count: nat)
    requires Passes(tasks, count + 1) == Passes(tasks, count)
    ensures Pass(Passes(tasks, 5)) == Passes(tasks, 5)
  {
    hide Passes, Pass, Swings, WillSwing;
    FivePassesConvergeIff(tasks);
    WillSwingIff(tasks);
    if Swings(Pass(tasks)) {
      SwingingNeverSettles(tasks, count);
    }
  }

  /**
   Once level texts are canonical, swinging cards can be told before the call: a card
   with two sources that swings on such a board moves in every pass, for ever.
   */
  lemma {:induction false} RepeatedDetachmentOscillates(board: seq<Task>, count: nat)
    requires IsCanonical(board) && Swings(board)
    ensures Passes(board, count + 1) != Passes(board, count)
  {
    CanonicalSwingStays(board);
    SwingingNeverSettles(board, count);
  }

  // ----- Examples -----

  /** Two subtasks that are each other's parents, and a card sourced from both; the rest of the fields is arbitrary. */
  function PairBoard(task: Task): seq<Task>
  {
    [ExampleCard(task, "a", "b", None, None), ExampleCard(task, "b", "a", None, None),
     ExampleCard(task, "c", "a", Some("a"), Some("b"))]
  }

  /** Three cards in a ring, each sourced from the other two. */
  function TripleBoard(task: Task): seq<Task>
  {
    [ExampleCard(task, "a", "b", Some("b"), Some("c")), ExampleCard(task, "b", "c", Some("a"), Some("c")),
     ExampleCard(task, "c", "a", Some("a"), Some("b"))]
  }

  function ExampleCard(task: Task, id: string, parentId: string, source: Option<string>, qaSource: Option<string>): Task
  {
    task.(id := id, systemCard := false, sourceTaskId := source, sourceQaTaskId := qaSource,
          hierarchy := task.hierarchy.(parentId := Some(parentId), level := "subtask"))
  }

  /** Both situations exist, and they are two. */
  lemma {:induction false} BothSituationsExist(task: Task, count: nat)
    ensures Passes(PairBoard(task), count + 1) != Passes(PairBoard(task), count)
    ensures Passes(TripleBoard(task), count + 1) != Passes(TripleBoard(task), count)
  {
    PairBoardSwings(task);
    TripleBoardSwings(task);
    hide PairBoard, TripleBoard;
    RepeatedDetachmentOscillates(PairBoard(task), count);
    RepeatedDetachmentOscillates(TripleBoard(task), count);
  }

  lemma {:induction false} PairBoardSwings(task: Task)
    ensures IsCanonical(PairBoard(task)) && Swings(PairBoard(task))
  {
    var board := PairBoard(task);
    assert FindIndex(board, "a") == Some(0) && FindIndex(board, "b") == Some(1);
    assert IsPair(board, "a", "b");
    assert IsSwinging(board, board[2], "a", "b");
  }

  lemma {:induction false} TripleBoardSwings(task: Task)
    ensures IsCanonical(TripleBoard(task)) && Swings(TripleBoard(task))
  {
    var board := TripleBoard(task);
    assert board[2].id == "c";
    assert FindIndex(board, "a") == Some(0) && FindIndex(board, "b") == Some(1) && FindIndex(board, "c") == Some(2);
    assert IsTriple(board, "a", "b", "c");
    assert IsSwinging(board, board[2], "a", "b");
  }

  // ----- Four passes -----

  /** A chain of five tasks, all but the first calling themselves initiatives, the first in an unusual spelling. */
  ghost predicate IsMislabelledChain(tasks: seq<Task>)
  {
    && |tasks| == 5 && UniqueIds(tasks)
    && (forall i | 0 <= i < 5 :: !SourceLinkIsStructural(tasks[i]))
    && tasks[0].hierarchy.parentId.None? && tasks[0].hierarchy.level == " initiative"
    && (forall i | 1 <= i < 5 ::
          tasks[i].hierarchy.parentId == Some(tasks[i - 1].id) && tasks[i].hierarchy.level == "initiative")
  }

  /** How a task's rank follows its parent's in one pass; before the first pass its own text may differ. */
  predicate Follows(parentNow: nat, now: nat, next: nat, isFirst: bool)
  {
    if parentNow < 4 then next == parentNow + 1 else isFirst || next == now
  }

  lemma {:induction false} ChainRankStep(tasks: seq<Task>, count: nat, i: nat)
    requires IsMislabelledChain(tasks) && 1 <= i < 5
    ensures Follows(
              RankAfter(tasks, count, i - 1), RankAfter(tasks, count, i), RankAfter(tasks, count + 1, i), count == 0)
  {
    hide RankAfter, ParentAfter, FindIndex;
    assert tasks[i].hierarchy.parentId == Some(tasks[i - 1].id) && !SourceLinkIsStructural(tasks[i]);
    FindUnique(tasks, i - 1);
    hide IsMislabelledChain, SourceLinkIsStructural;
    PlainTaskStays(tasks, count + 1, i);
    RankStep(tasks, count, i);
  }

  lemma {:induction false} FirstRanks(tasks: seq<Task>)
    requires IsMislabelledChain(tasks)
    ensures RankAfter(tasks, 0, 0) == 2
    ensures forall i | 1 <= i < 5 :: RankAfter(tasks, 0, i) == 0
  {
    assert Passes(tasks, 0) == tasks;
  }

  lemma {:induction false} TrimmedRootLevel()
    ensures NormalizeLevel(" initiative", Story) == Initiative
  {
    assert TrimStart(" initiative") == "initiative";
    LevelNamesRoundTrip(Initiative, Story);
  }

  lemma {:induction false} PlainTaskStays(tasks: seq<Task>, count: nat, i: nat)
    requires i < |tasks| && !SourceLinkIsStructural(tasks[i])
    ensures ParentAfter(tasks, count, i) == tasks[i].hierarchy.parentId
  {
    if count > 0 {
      PlainTaskStays(tasks, count - 1, i);
      MoveRule(tasks, count - 1, i);
      hide ParentAfter;
    }
  }

  lemma {:induction false} RootAfterFirstPass(tasks: seq<Task>)
    requires IsMislabelledChain(tasks)
    ensures RankAfter(tasks, 1, 0) == 0
  {
    TrimmedRootLevel();
    RankAfterPass(tasks, 0, 0);
    assert Passes(tasks, 0) == tasks;
    var root := tasks[0];
    assert NormalizeLevel(root.hierarchy.level, Subtask) == Initiative || !root.internalValidation;
    assert OwnLevel(root, None) == Initiative;
  }

  lemma {:induction false} ChainRootRank(tasks: seq<Task>, count: nat)
    requires IsMislabelledChain(tasks)
    ensures RankAfter(tasks, count + 1, 0) == 0
  {
    hide RankAfter, ParentAfter;
    if count == 0 {
      RootAfterFirstPass(tasks);
    } else {
      assert tasks[0].hierarchy.parentId.None? && !SourceLinkIsStructural(tasks[0]);
      ChainRootRank(tasks, count - 1);
      hide IsMislabelledChain;
      PlainRootKeepsRank(tasks, count, 0);
    }
  }

  lemma {:induction false} PlainRootKeepsRank(tasks: seq<Task>, count: nat, i: nat)
    requires i < |tasks| && count > 0
    requires tasks[i].hierarchy.parentId.None? && !SourceLinkIsStructural(tasks[i])
    ensures RankAfter(tasks, count + 1, i) == RankAfter(tasks, count, i)
  {
    hide RankAfter, ParentAfter, SourceLinkIsStructural;
    PlainTaskStays(tasks, count + 1, i);
    RankStep(tasks, count, i);
  }

  /** Ranks that follow each other down a chain of five from these starting ranks still move in the fifth pass. */
  lemma {:induction false} FifthStepMovesTheLast(rank: (nat, nat) -> nat)
    requires rank(0, 0) == 2 && rank(0, 1) == 0 && rank(0, 2) == 0 && rank(0, 3) == 0
    requires forall count: nat | 1 <= count < 5 :: rank(count, 0) == 0
    requires forall count: nat, next: nat, parent: nat, i: nat
               | next == count + 1 && i == parent + 1 && count < 5 && parent < 4 ::
               Follows(rank(count, parent), rank(count, i), rank(next, i), count == 0)
    ensures rank(4, 4) == 3 && rank(5, 4) == 4
  {
    assert rank(1, 0) == 0 && rank(2, 0) == 0 && rank(3, 0) == 0;
    assert rank(1, 1) == 3 && rank(1, 2) == 1 && rank(1, 3) == 1;
    assert rank(2, 1) == 1 && rank(2, 2) == 4 && rank(2, 3) == 2;
    assert rank(3, 2) == 2 && rank(3, 3) == 2;
    assert rank(4, 3) == 3;
    assert rank(2, 4) == 2 && rank(3, 4) == 3;
  }

  ghost function ChainRank(tasks: seq<Task>): (nat, nat) -> nat
    requires |tasks| == 5
  {
    (count, i) => if i < 5 then RankAfter(tasks, count, i) else 0
  }

  lemma {:induction false} ChainRankFollows(tasks: seq<Task>, count: nat, next: nat, parent: nat, i: nat)
    requires IsMislabelledChain(tasks)
    requires next == count + 1 && i == parent + 1 && count < 5 && parent < 4
    ensures Follows(ChainRank(tasks)(count, parent), ChainRank(tasks)(count, i), ChainRank(tasks)(next, i), count == 0)
  {
    hide Passes;
    ChainRankStep(tasks, count, i);
  }

  lemma {:induction false} ChainRankStarts(tasks: seq<Task>)
    requires IsMislabelledChain(tasks)
    ensures var rank := ChainRank(tasks); rank(0, 0) == 2 && rank(0, 1) == 0 && rank(0, 2) == 0 && rank(0, 3) == 0
    ensures forall count: nat | 1 <= count < 5 :: ChainRank(tasks)(count, 0) == 0
  {
    assert |tasks| == 5;
    FirstRanks(tasks);
    hide RankAfter, IsMislabelledChain;
    forall count: nat | 1 <= count < 5
      ensures ChainRank(tasks)(count, 0) == 0
    {
      ChainRootRank(tasks, count - 1);
    }
  }

  /** Four passes would not do: the fifth still moves the last task of such a chain. */
  lemma {:induction false} FourPassesAreNotEnough(tasks: seq<Task>)
    requires IsMislabelledChain(tasks)
    ensures Passes(tasks, 5) != Passes(tasks, 4)
  {
    assert |tasks| == 5;
    ChainRankStarts(tasks);
    ChainRankEnds(tasks);
    assert RankAfter(tasks, 4, 4) == ChainRank(tasks)(4, 4) && RankAfter(tasks, 5, 4) == ChainRank(tasks)(5, 4);
    RankDiffers(tasks, 4, 5, 4);
  }

  lemma {:induction false} ChainRankEnds(tasks: seq<Task>)
    requires IsMislabelledChain(tasks)
    ensures ChainRank(tasks)(4, 4) == 3 && ChainRank(tasks)(5, 4) == 4
  {
    assert |tasks| == 5;
    ChainRankStarts(tasks);
    hide ChainRank, RankAfter, IsMislabelledChain, Follows;
    forall count: nat, next: nat, parent: nat, i: nat | next == count + 1 && i == parent + 1 && count < 5 && parent < 4
      ensures Follows(
                ChainRank(tasks)(count, parent), ChainRank(tasks)(count, i), ChainRank(tasks)(next, i), count == 0)
    {
      ChainRankFollows(tasks, count, next, parent, i);
    }
    FifthStepMovesTheLast(ChainRank(tasks));
  }

  lemma {:induction false} RankDiffers(tasks: seq<Task>, a: nat, b: nat, i: nat)
    requires i < |tasks| && RankAfter(tasks, a, i) != RankAfter(tasks, b, i)
    ensures Passes(tasks, a) != Passes(tasks, b)
  {
  }

  // ----- The whole normalisation -----

  /** What the normalisation leaves of the task list. */
  function Normalized(tasks: seq<Task>): seq<Task>
  {
    Repaired(Passes(tasks, 5))
  }

  /** Two versions of a task that agree on everything the passes read or write. */
  predicate SameShape(a: Task, b: Task)
  {
    && a.id == b.id && a.hierarchy == b.hierarchy && a.dependsOn == b.dependsOn
    && a.sourceTaskId == b.sourceTaskId && a.sourceQaTaskId == b.sourceQaTaskId
    && a.systemCard == b.systemCard && a.internalValidation == b.internalValidation
  }

  ghost predicate SameShapes(a: seq<Task>, b: seq<Task>)
  {
    |a| == |b| && forall i | 0 <= i < |a| :: SameShape(a[i], b[i])
  }

  lemma {:induction false} FindSameShape(a: seq<Task>, b: seq<Task>, id: string)
    requires SameShapes(a, b)
    ensures Find(a, id).None? <==> Find(b, id).None?
    ensures Find(a, id).Some? ==> SameShape(Find(a, id).value, Find(b, id).value)
  {
    SameIdsSameIndex(a, b, id);
  }

  lemma {:induction false} SameShapeSameParent(a: seq<Task>, b: seq<Task>, x: Task, y: Task)
    requires SameShapes(a, b) && SameShape(x, y)
    ensures RepairedParent(a, x) == RepairedParent(b, y)
  {
    if x.hierarchy.parentId.Some? {
      FindSameShape(a, b, x.hierarchy.parentId.value);
    }
  }

  lemma {:induction false} SameShapeSameLevel(a: seq<Task>, b: seq<Task>, x: Task, y: Task)
    requires SameShapes(a, b) && SameShape(x, y)
    ensures RepairedLevel(a, x) == RepairedLevel(b, y)
  {
    SameShapeSameParent(a, b, x, y);
    var parentId := RepairedParent(a, x);
    assert OwnLevel(x, parentId) == OwnLevel(y, parentId);
    if parentId.Some? {
      FindSameShape(a, b, parentId.value);
    }
  }

  lemma {:induction false} PassKeepsSameShapes(a: seq<Task>, b: seq<Task>)
    requires SameShapes(a, b)
    ensures SameShapes(Pass(a), Pass(b))
  {
    forall i | 0 <= i < |a|
      ensures SameShape(Pass(a)[i], Pass(b)[i])
    {
      SameShapeSameParent(a, b, a[i], b[i]);
      SameShapeSameLevel(a, b, a[i], b[i]);
      hide RepairedParent, RepairedLevel, DedupeStrings, LevelName;
    }
  }

  lemma {:induction false} PassesKeepSameShapes(a: seq<Task>, b: seq<Task>, count: nat)
    requires SameShapes(a, b)
    ensures SameShapes(Passes(a, count), Passes(b, count))
  {
    hide SameShapes, Pass;
    if count > 0 {
      PassesKeepSameShapes(a, b, count - 1);
      PassKeepsSameShapes(Passes(a, count - 1), Passes(b, count - 1));
    }
  }

  /** Blocking does not touch what the passes read or write. */
  lemma {:induction false} BlockEachSameShapes(tasks: seq<Task>, invalid: seq<(string, Obstacle)>)
    ensures SameShapes(tasks, BlockEach(tasks, invalid))
  {
    if invalid != [] {
      BlockEachSameShapes(tasks, invalid[..|invalid| - 1]);
    }
  }

  lemma {:induction false} RepairedSameShapes(tasks: seq<Task>)
    ensures SameShapes(tasks, Repaired(tasks)) && SameShapes(Repaired(tasks), tasks)
  {
    BlockEachSameShapes(tasks, Invalid(tasks, |tasks|));
  }

  lemma {:induction false} FixpointHasItsShape(tasks: seq<Task>, other: seq<Task>)
    requires Pass(tasks) == tasks && SameShapes(tasks, other)
    ensures Pass(other) == other
  {
    forall i | 0 <= i < |tasks|
      ensures NormalizeTask(other, other[i]) == other[i]
    {
      assert NormalizeTask(tasks, tasks[i]) == tasks[i];
      NormalizedTaskIsTidy(tasks, tasks[i]);
      SameShapeSameParent(tasks, other, tasks[i], other[i]);
      SameShapeSameLevel(tasks, other, tasks[i], other[i]);
      TidyTaskIsKept(other, other[i]);
    }
  }

  /** Blocking settles no board and unsettles none. */
  lemma {:induction false} RepairKeepsFixpoint(tasks: seq<Task>)
    ensures Pass(Repaired(tasks)) == Repaired(tasks) <==> Pass(tasks) == tasks
  {
    RepairedSameShapes(tasks);
    hide Repaired, SameShapes, Pass;
    if Pass(tasks) == tasks {
      FixpointHasItsShape(tasks, Repaired(tasks));
    }
    if Pass(Repaired(tasks)) == Repaired(tasks) {
      FixpointHasItsShape(Repaired(tasks), tasks);
    }
  }

  lemma {:induction false} PassesAtFixpoint(tasks: seq<Task>, count: nat)
    requires Pass(tasks) == tasks
    ensures Passes(tasks, count) == tasks
  {
    if count > 0 {
      PassesAtFixpoint(tasks, count - 1);
    }
  }

  /**
   The normalised board is in order, with levels settled and only approved tasks active,
   exactly when the first pass leaves no swinging card and every task that fails the
   walk after the fifth is the first bearer of its id.
   */
  lemma {:induction false} NormalizedBoardIsInOrderIff(tasks: seq<Task>)
    ensures Pass(Normalized(tasks)) == Normalized(tasks) && ActiveAreApproved(Normalized(tasks))
            <==> !WillSwing(tasks) && FailingAreFirst(Passes(tasks, 5))
  {
    hide Passes, Repaired, Pass, WillSwing, FailingAreFirst, ActiveAreApproved;
    FivePassesConvergeIff(tasks);
    RepairKeepsFixpoint(Passes(tasks, 5));
    RepairApprovesIff(Passes(tasks, 5));
  }

  /**
   Normalising twice is normalising once exactly if the first pass leaves no swinging
   card and on the board that the approval repair gets, one repair is enough.
   */
  lemma {:induction false} NormalizeIsIdempotentIff(tasks: seq<Task>)
    ensures Normalized(Normalized(tasks)) == Normalized(tasks)
            <==> !WillSwing(tasks) && OneRepairIsEnough(Passes(tasks, 5))
  {
    var settled, board := Passes(tasks, 5), Normalized(tasks);
    assert board == Repaired(settled) && Normalized(board) == Repaired(Passes(board, 5));
    hide Normalized, Passes, Pass, WillSwing, Swings, Repaired, OneRepairIsEnough;
    RepairIsIdempotentIff(settled);
    if WillSwing(tasks) {
      WillSwingIff(tasks);
      SwingingIsNotIdempotent(tasks);
    } else {
      FivePassesConvergeIff(tasks);
      RepairKeepsFixpoint(settled);
      PassesAtFixpoint(board, 5);
    }
  }

  // ----- Told on the board handed in -----

  /** Every task that may run is the first bearer of its id. */
  predicate ActiveAreFirst(tasks: seq<Task>)
  {
    forall i | 0 <= i < |tasks| && IsActive(tasks[i]) :: IsFirstBearer(tasks, i)
  }

  /** The passes touch neither ids nor statuses. */
  lemma {:induction false} ActiveFirstBearersStay(tasks: seq<Task>, count: nat)
    requires ActiveAreFirst(tasks)
    ensures FailingAreFirst(Passes(tasks, count))
  {
    PassesKeepIds(tasks, count);
    PassesKeepFixed(tasks, count);
    var after := Passes(tasks, count);
    hide Passes, CanonicalStatus;
    forall i | 0 <= i < |after| && MustBeBlocked(after, after[i])
      ensures IsFirstBearer(after, i)
    {
      assert IsActive(tasks[i]);
      SameIdsSameIndex(after, tasks, tasks[i].id);
    }
  }

  /** Where active tasks are first bearers, all that can go wrong is a card that swings after the first pass. */
  lemma {:induction false} ActiveFirstBearersSettleIff(tasks: seq<Task>)
    requires ActiveAreFirst(tasks)
    ensures Normalized(Normalized(tasks)) == Normalized(tasks) <==> !WillSwing(tasks)
    ensures Pass(Normalized(tasks)) == Normalized(tasks) <==> !WillSwing(tasks)
    ensures ActiveAreApproved(Normalized(tasks))
  {
    hide Passes, Pass, WillSwing, Repaired, OneRepairIsEnough, FailingAreFirst, ActiveAreApproved, ActiveAreFirst;
    ActiveFirstBearersStay(tasks, 5);
    FailingAreFirstSuffices(Passes(tasks, 5));
    NormalizeIsIdempotentIff(tasks);
    FivePassesConvergeIff(tasks);
    RepairKeepsFixpoint(Passes(tasks, 5));
    RepairApprovesIff(Passes(tasks, 5));
  }

  /** The board as the repair sees it when the passes move nothing: tasks without a scope version are required. */
  function Opened(tasks: seq<Task>): seq<Task>
  {
    seq(|tasks|, i requires 0 <= i < |tasks| => OpenedTask(tasks[i]))
  }

  function OpenedTask(task: Task): Task
  {
    task.(hierarchy := task.hierarchy.(required := task.hierarchy.scopeVersion == 0 || task.hierarchy.required))
  }

  ghost predicate NothingIsDetached(tasks: seq<Task>)
  {
    forall i | 0 <= i < |tasks| :: !IsDetached(tasks[i])
  }

  /** A pass over a board without detached cards, or any later one. */
  lemma {:induction false} PassOpens(before: seq<Task>, original: seq<Task>)
    requires NothingIsDetached(before) && SameBoardForRepair(Opened(before), Opened(original))
    ensures NothingIsDetached(Pass(before)) && SameBoardForRepair(Pass(before), Opened(original))
    ensures SameBoardForRepair(Opened(Pass(before)), Opened(original))
  {
    forall i | 0 <= i < |before|
      ensures !IsDetached(Pass(before)[i]) && SameForRepair(Pass(before)[i], Opened(original)[i])
      ensures SameForRepair(Opened(Pass(before))[i], Opened(original)[i])
    {
      assert SameForRepair(Opened(before)[i], Opened(original)[i]);
      NormalizeKeepsFixed(before, before[i]);
      hide RepairedLevel, LevelName, DedupeStrings, SourceLinkIsStructural;
    }
  }

  lemma {:induction false} PassesOpen(tasks: seq<Task>, count: nat)
    requires NothingIsDetached(tasks)
    ensures NothingIsDetached(Passes(tasks, count)) && SameBoardForRepair(Opened(Passes(tasks, count)), Opened(tasks))
    ensures count > 0 ==> SameBoardForRepair(Passes(tasks, count), Opened(tasks))
  {
    if count > 0 {
      hide Pass, Opened, NothingIsDetached, SameBoardForRepair;
      PassesOpen(tasks, count - 1);
      PassOpens(Passes(tasks, count - 1), tasks);
    }
  }

  /**
   Where no card stands below one of its sources the exact conditions, too, are told on
   the board handed in, whatever its ids and parent links.
   */
  lemma {:induction false} UndetachedBoardIff(tasks: seq<Task>)
    requires NothingIsDetached(tasks)
    ensures Pass(Normalized(tasks)) == Normalized(tasks)
    ensures ActiveAreApproved(Normalized(tasks)) <==> FailingAreFirst(Opened(tasks))
    ensures Normalized(Normalized(tasks)) == Normalized(tasks) <==> OneRepairIsEnough(Opened(tasks))
  {
    NothingDetachedNothingSwings(tasks);
    hide Passes, Pass, Opened, WillSwing, Repaired, OneRepairIsEnough, FailingAreFirst, ActiveAreApproved,
      NothingIsDetached, SameBoardForRepair;
    PassesOpen(tasks, 5);
    SameConditions(Passes(tasks, 5), Opened(tasks));
    NormalizeIsIdempotentIff(tasks);
    FivePassesConvergeIff(tasks);
    RepairKeepsFixpoint(Passes(tasks, 5));
    RepairApprovesIff(Passes(tasks, 5));
  }

  /** In particular nothing goes wrong with unique ids and no card below one of its sources. */
  lemma {:induction false} PlainBoardIsNormalizedOnce(tasks: seq<Task>)
    requires UniqueIds(tasks) && NothingIsDetached(tasks)
    ensures Normalized(Normalized(tasks)) == Normalized(tasks)
    ensures Pass(Normalized(tasks)) == Normalized(tasks) && ActiveAreApproved(Normalized(tasks))
  {
    UniqueIdsSuffice(tasks);
    hide Normalized, Pass, WillSwing, IsDetached, IsFirstBearer, IsActive, ActiveAreApproved;
    NothingDetachedNothingSwings(tasks);
    ActiveFirstBearersSettleIff(tasks);
  }

  /** A swinging card stands below the one source after five passes, and below the other after ten. */
  lemma {:induction false} SwingingIsNotIdempotent(tasks: seq<Task>)
    requires Swings(Pass(tasks))
    ensures Normalized(Normalized(tasks)) != Normalized(tasks)
  {
    hide IsSwingingAfter, Passes, Swings, Pass, Normalized, ParentAfter;
    var i, a, b := SwingsAfterFirstPass(tasks);
    SwingingStandsOn(tasks, 4, i, a, b);
    SwingingStandsOn(tasks, 9, i, a, b);
    NormalizedParent(tasks, i);
    NormalizedTwiceParent(tasks, i);
  }

  lemma {:induction false} NormalizedParent(tasks: seq<Task>, i: nat)
    requires i < |tasks|
    ensures |Normalized(tasks)| == |tasks| && Normalized(tasks)[i].hierarchy.parentId == ParentAfter(tasks, 5, i)
  {
    PassesKeepIds(tasks, 5);
    hide Passes, Repaired;
    RepairedSameShapes(Passes(tasks, 5));
  }

  lemma {:induction false} NormalizedTwiceParent(tasks: seq<Task>, i: nat)
    requires i < |tasks|
    ensures |Normalized(Normalized(tasks))| == |tasks|
    ensures Normalized(Normalized(tasks))[i].hierarchy.parentId == ParentAfter(tasks, 10, i)
  {
    PassesKeepIds(tasks, 5);
    PassesKeepIds(tasks, 10);
    hide Passes, Repaired, Pass;
    var settled := Passes(tasks, 5);
    RepairedSameShapes(settled);
    PassesKeepSameShapes(Normalized(tasks), settled, 5);
    PassesCompose(tasks, 5, 5);
    NormalizedParent(Normalized(tasks), i);
  }

  lemma {:induction false} PassesCompose(tasks: seq<Task>, first: nat, more: nat)
    ensures Passes(Passes(tasks, first), more) == Passes(tasks, first + more)
  {
    hide Pass;
    if more > 0 {
      PassesCompose(tasks, first, more - 1);
    }
  }

  /**
   On the normalised board exactly the subtasks are executable; if no card swings, each
   task sits at the level below its parent's whenever there is one; and if the failing
   tasks are first bearers, every active task is approved.
   */
  lemma {:induction false} NormalizedBoardIsWellFormed(tasks: seq<Task>, i: nat)
    requires i < |Normalized(tasks)|
    ensures var board, task := Normalized(tasks), Normalized(tasks)[i];
            && (task.hierarchy.executable <==> LevelOf(task) == Subtask)
            && (!WillSwing(tasks) && LevelFromParent(board, task.hierarchy.parentId).Some? ==>
                  LevelFromParent(board, task.hierarchy.parentId) == Some(LevelOf(task)))
            && (FailingAreFirst(Passes(tasks, 5)) && IsActive(task) ==> AncestorsApprove(board, task))
  {
    hide Passes, Pass, Repaired, WillSwing, FailingAreFirst, AncestorsApprove, IsActive, LevelFromParent;
    NormalizedTaskIsExecutableIff(tasks, i);
    FivePassesConvergeIff(tasks);
    RepairKeepsFixpoint(Passes(tasks, 5));
    RepairApprovesIff(Passes(tasks, 5));
    if !WillSwing(tasks) {
      SettledLevelFollowsParent(Normalized(tasks), i);
    }
  }

  lemma {:induction false} NormalizedTaskIsExecutableIff(tasks: seq<Task>, i: nat)
    requires i < |Normalized(tasks)|
    ensures Normalized(tasks)[i].hierarchy.executable <==> LevelOf(Normalized(tasks)[i]) == Subtask
  {
    hide Repaired;
    PassesKeepIds(tasks, 5);
    RepairedSameShapes(Passes(tasks, 5));
    PassesAt(tasks, 4, i);
    hide Passes, NormalizeTask, LevelName;
    NormalizedTaskIsTidy(Passes(tasks, 4), Passes(tasks, 4)[i]);
  }

  lemma {:induction false} SettledLevelFollowsParent(board: seq<Task>, i: nat)
    requires Pass(board) == board && i < |board|
    ensures var parentId := board[i].hierarchy.parentId;
            LevelFromParent(board, parentId).Some? ==> LevelFromParent(board, parentId) == Some(LevelOf(board[i]))
  {
    assert Pass(board)[i] == NormalizeTask(board, board[i]);
    NormalizedTaskIsTidy(board, board[i]);
    hide LevelFromParent, OwnLevel, LevelOf, LevelName;
  }
}
