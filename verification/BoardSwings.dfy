/**
 Cards that never come to rest. A card with two sources may be handed from one to the
 other and back; this goes on for ever in two situations, and in every other one it is
 over before the sixth pass.
 */
module BoardSwings {
  import opened Wrappers
  import opened Board
  import opened BoardLevels
  import opened BoardPasses

  // ----- The two situations -----

  /** The task with the first id is a subtask below the task with the second. */
  predicate PointsTo(board: seq<Task>, id: string, parentId: string)
  {
    match FindIndex(board, id)
    case None => false
    case Some(i) => LevelOf(board[i]) == Subtask && board[i].hierarchy.parentId == Some(parentId)
  }

  /** Two subtasks that are each other's parents, and not because one comes from the other. */
  predicate IsPair(board: seq<Task>, a: string, b: string)
  {
    PointsTo(board, a, b) && PointsTo(board, b, a) && !IsFrom(board, a, b) && !IsFrom(board, b, a)
  }

  /** Three tasks, each of which comes from the other two. */
  predicate ComeFromEachOther(tasks: seq<Task>, a: string, b: string, c: string)
  {
    && c !in {a, b}
    && IsFrom(tasks, a, b) && IsFrom(tasks, a, c) && IsFrom(tasks, b, a)
    && IsFrom(tasks, b, c) && IsFrom(tasks, c, a) && IsFrom(tasks, c, b)
  }

  /** A ring of three subtasks, each of which comes from the other two. */
  predicate IsTriple(board: seq<Task>, a: string, b: string, c: string)
  {
    && PointsTo(board, a, b) && PointsTo(board, b, c) && PointsTo(board, c, a)
    && ComeFromEachOther(board, a, b, c)
  }

  ghost predicate IsRing(board: seq<Task>, a: string, b: string)
  {
    IsPair(board, a, b) || exists c :: IsTriple(board, a, b, c)
  }

  /** The card comes from two tasks of such a ring and stands below the one that points to the other. */
  ghost predicate IsSwinging(board: seq<Task>, card: Task, a: string, b: string)
  {
    && a != b && ComesFrom(card, a) && ComesFrom(card, b) && card.hierarchy.parentId == Some(a)
    && IsRing(board, a, b)
  }

  ghost predicate Swings(board: seq<Task>)
  {
    exists i, a, b :: 0 <= i < |board| && IsSwinging(board, board[i], a, b)
  }

  // ----- The same after one pass, told on the board before it -----

  /** After the pass the task with the first id is a subtask below the task with the second. */
  predicate WillPointTo(tasks: seq<Task>, id: string, parentId: string)
  {
    match FindIndex(tasks, id)
    case None => false
    case Some(i) => RepairedLevel(tasks, tasks[i]) == Subtask && RepairedParent(tasks, tasks[i]) == Some(parentId)
  }

  ghost predicate WillBeRing(tasks: seq<Task>, a: string, b: string)
  {
    || (WillPointTo(tasks, a, b) && WillPointTo(tasks, b, a) && !IsFrom(tasks, a, b) && !IsFrom(tasks, b, a))
    || exists c ::
         && WillPointTo(tasks, a, b) && WillPointTo(tasks, b, c) && WillPointTo(tasks, c, a)
         && ComeFromEachOther(tasks, a, b, c)
  }

  /** The first pass leaves the card below one of its sources, and the two in a ring. */
  ghost predicate WillSwing(tasks: seq<Task>)
  {
    exists i, a, b :: 0 <= i < |tasks| && CardWillSwing(tasks, tasks[i], a, b)
  }

  ghost predicate CardWillSwing(tasks: seq<Task>, card: Task, a: string, b: string)
  {
    && a != b && ComesFrom(card, a) && ComesFrom(card, b) && RepairedParent(tasks, card) == Some(a)
    && WillBeRing(tasks, a, b)
  }

  lemma {:induction false} WillPointToIff(tasks: seq<Task>, id: string, parentId: string)
    ensures WillPointTo(tasks, id, parentId) <==> PointsTo(Pass(tasks), id, parentId)
  {
    SameIdsSameIndex(Pass(tasks), tasks, id);
    if FindIndex(tasks, id).Some? {
      NormalizedTaskIsTidy(tasks, tasks[FindIndex(tasks, id).value]);
    }
    hide RepairedLevel, RepairedParent, LevelOf, LevelName, FindIndex;
  }

  lemma {:induction false} IsFromStays(tasks: seq<Task>, id: string, source: string)
    ensures IsFrom(Pass(tasks), id, source) <==> IsFrom(tasks, id, source)
  {
    assert Passes(tasks, 1) == Pass(Passes(tasks, 0));
    IsFromAfter(tasks, 1, id, source);
  }

  lemma {:induction false} WillBeRingIff(tasks: seq<Task>, a: string, b: string)
    ensures WillBeRing(tasks, a, b) <==> IsRing(Pass(tasks), a, b)
  {
    hide WillPointTo, PointsTo, IsFrom, Pass;
    forall x, y
      ensures WillPointTo(tasks, x, y) <==> PointsTo(Pass(tasks), x, y)
    {
      WillPointToIff(tasks, x, y);
    }
    forall x, y
      ensures IsFrom(tasks, x, y) <==> IsFrom(Pass(tasks), x, y)
    {
      IsFromStays(tasks, x, y);
    }
    forall c
      ensures IsTriple(Pass(tasks), a, b, c) <==>
                && WillPointTo(tasks, a, b) && WillPointTo(tasks, b, c) && WillPointTo(tasks, c, a)
                && ComeFromEachOther(tasks, a, b, c)
    {
    }
  }

  lemma {:induction false} WillSwingIff(tasks: seq<Task>)
    ensures WillSwing(tasks) <==> Swings(Pass(tasks))
  {
    forall i, a, b | 0 <= i < |tasks|
      ensures CardWillSwing(tasks, tasks[i], a, b) <==> IsSwinging(Pass(tasks), Pass(tasks)[i], a, b)
    {
      NormalizeKeepsFixed(tasks, tasks[i]);
      WillBeRingIff(tasks, a, b);
      hide WillBeRing, IsRing, RepairedParent, RepairedLevel, LevelName, DedupeStrings;
    }
    hide CardWillSwing, IsSwinging, NormalizeTask;
  }

  /** A board on which no card stands below a source leaves none swinging. */
  lemma {:induction false} NothingDetachedNothingSwings(tasks: seq<Task>)
    requires forall i | 0 <= i < |tasks| :: !IsDetached(tasks[i])
    ensures !WillSwing(tasks)
  {
    hide WillBeRing;
  }

  // ----- What the passes do to a ring -----

  lemma {:induction false} PointsToAfter(tasks: seq<Task>, count: nat, id: string, parentId: string)
    ensures PointsTo(Passes(tasks, count), id, parentId) <==> Beside(tasks, count, id) == Some(parentId)
  {
    FindAfterPasses(tasks, count, id);
    hide Passes, FindIndex, LevelOf;
  }

  lemma {:induction false} IsFromAfter(tasks: seq<Task>, count: nat, id: string, source: string)
    ensures IsFrom(Passes(tasks, count), id, source) <==> IsFrom(tasks, id, source)
  {
    FindAfterPasses(tasks, count, id);
    PassesKeepFixed(tasks, count);
    hide Passes, FindIndex;
  }

  /** A subtask that points to another points to where it goes next, if that is a subtask. */
  lemma {:induction false} PointStep(tasks: seq<Task>, count: nat, id: string, parentId: string, next: string)
    requires (count > 0 || IsCanonical(tasks)) && Beside(tasks, count, id) == Some(parentId)
    requires if IsFrom(tasks, id, parentId) then Beside(tasks, count, parentId) == Some(next) else next == parentId
    requires IsSubtaskAfter(tasks, count, next)
    ensures Beside(tasks, count + 1, id) == Some(next)
  {
    hide ParentOf, IsSubtaskAfter;
    MoveRuleById(tasks, count, id);
    BelowSubtaskIsKept(tasks, count, id, next);
  }

  lemma {:induction false} PairStep(tasks: seq<Task>, count: nat, a: string, b: string)
    requires (count > 0 || IsCanonical(tasks)) && IsPair(Passes(tasks, count), a, b)
    ensures IsPair(Passes(tasks, count + 1), b, a)
    ensures Beside(tasks, count, a) == Some(b)
  {
    PairAfter(tasks, count, a, b);
    PairAfter(tasks, count + 1, b, a);
    hide IsPair, IsFrom;
    PointStep(tasks, count, a, b, b);
    PointStep(tasks, count, b, a, a);
  }

  lemma {:induction false} PairAfter(tasks: seq<Task>, count: nat, a: string, b: string)
    ensures IsPair(Passes(tasks, count), a, b) <==>
              && Beside(tasks, count, a) == Some(b) && Beside(tasks, count, b) == Some(a)
              && !IsFrom(tasks, a, b) && !IsFrom(tasks, b, a)
  {
    hide PointsTo, IsFrom, Beside, Passes;
    PointsToAfter(tasks, count, a, b);
    PointsToAfter(tasks, count, b, a);
    IsFromAfter(tasks, count, a, b);
    IsFromAfter(tasks, count, b, a);
  }

  lemma {:induction false} TripleStep(tasks: seq<Task>, count: nat, a: string, b: string, c: string)
    requires (count > 0 || IsCanonical(tasks)) && IsTriple(Passes(tasks, count), a, b, c)
    ensures IsTriple(Passes(tasks, count + 1), b, a, c)
    ensures Beside(tasks, count, a) == Some(b)
  {
    TripleAfter(tasks, count, a, b, c);
    TripleAfter(tasks, count + 1, b, a, c);
    hide IsTriple, IsFrom;
    PointStep(tasks, count, a, b, c);
    PointStep(tasks, count, b, c, a);
    PointStep(tasks, count, c, a, b);
  }

  lemma {:induction false} TripleAfter(tasks: seq<Task>, count: nat, a: string, b: string, c: string)
    ensures IsTriple(Passes(tasks, count), a, b, c) <==>
              && ComeFromEachOther(tasks, a, b, c)
              && Beside(tasks, count, a) == Some(b) && Beside(tasks, count, b) == Some(c)
              && Beside(tasks, count, c) == Some(a)
  {
    hide PointsTo, IsFrom, Beside, Passes;
    PointsToAfter(tasks, count, a, b);
    PointsToAfter(tasks, count, b, c);
    PointsToAfter(tasks, count, c, a);
    forall x, y | x in {a, b, c} && y in {a, b, c}
      ensures IsFrom(Passes(tasks, count), x, y) <==> IsFrom(tasks, x, y)
    {
      IsFromAfter(tasks, count, x, y);
    }
  }

  /** The card with the index swings after `count` passes. */
  ghost predicate IsSwingingAfter(tasks: seq<Task>, count: nat, i: nat, a: string, b: string)
    requires i < |tasks|
  {
    && a != b && ComesFrom(tasks[i], a) && ComesFrom(tasks[i], b) && ParentAfter(tasks, count, i) == Some(a)
    && IsRing(Passes(tasks, count), a, b)
  }

  lemma {:induction false} SwingingAfter(tasks: seq<Task>, count: nat, i: nat, a: string, b: string)
    requires i < |tasks|
    ensures |Passes(tasks, count)| == |tasks|
    ensures IsSwinging(Passes(tasks, count), Passes(tasks, count)[i], a, b) <==> IsSwingingAfter(tasks, count, i, a, b)
  {
    PassesKeepFixed(tasks, count);
    hide Passes, IsRing;
  }

  /** A swinging card swings to the other side, and there it swings again. */
  lemma {:induction false} SwingStep(tasks: seq<Task>, count: nat, i: nat, a: string, b: string)
    requires i < |tasks| && (count > 0 || IsCanonical(tasks)) && IsSwingingAfter(tasks, count, i, a, b)
    ensures IsSwingingAfter(tasks, count + 1, i, b, a)
  {
    hide Passes, IsPair, IsTriple, Beside, ParentAfter, ComesFrom;
    MoveRule(tasks, count, i);
    if IsPair(Passes(tasks, count), a, b) {
      PairStep(tasks, count, a, b);
    } else {
      var c :| IsTriple(Passes(tasks, count), a, b, c);
      TripleStep(tasks, count, a, b, c);
    }
  }

  /** After any number of passes the card still swings. */
  lemma {:induction false} SwingsForEver(tasks: seq<Task>, count: nat, i: nat, a: string, b: string)
    requires i < |tasks| && IsSwingingAfter(tasks, 1, i, a, b)
    ensures if count % 2 == 0 then IsSwingingAfter(tasks, count + 1, i, a, b)
            else IsSwingingAfter(tasks, count + 1, i, b, a)
  {
    hide IsSwingingAfter;
    if count > 0 {
      SwingsForEver(tasks, count - 1, i, a, b);
      if count % 2 == 1 {
        SwingStep(tasks, count, i, a, b);
      } else {
        SwingStep(tasks, count, i, b, a);
      }
    }
  }

  lemma {:induction false} SwingsAfterFirstPass(tasks: seq<Task>) returns (i: nat, a: string, b: string)
    requires Swings(Pass(tasks))
    ensures i < |tasks| && a != b && IsSwingingAfter(tasks, 1, i, a, b)
  {
    assert Passes(tasks, 1) == Pass(Passes(tasks, 0)) == Pass(tasks);
    hide Passes, IsSwingingAfter;
    var k, x, y :| 0 <= k < |Pass(tasks)| && IsSwinging(Pass(tasks), Pass(tasks)[k], x, y);
    i, a, b := k, x, y;
    SwingingAfter(tasks, 1, i, a, b);
  }

  /** Once the first pass leaves a swinging card, no pass is ever the last to change something. */
  lemma {:induction false} SwingingNeverSettles(tasks: seq<Task>, count: nat)
    requires Swings(Pass(tasks))
    ensures Passes(tasks, count + 1) != Passes(tasks, count)
  {
    var i, a, b := SwingsAfterFirstPass(tasks);
    if Passes(tasks, count + 1) == Passes(tasks, count) {
      if count == 0 {
        assert Passes(tasks, 1) == Pass(Passes(tasks, 0)) && Passes(tasks, 2) == Pass(Passes(tasks, 1));
      }
      hide Passes, Pass, IsSwingingAfter;
      SwingingKeepsMoving(tasks, if count == 0 then 0 else count - 1, i, a, b);
    }
  }

  /** Where levels are canonical already, a card that swings before the first pass swings after it. */
  lemma {:induction false} CanonicalSwingStays(board: seq<Task>)
    requires IsCanonical(board) && Swings(board)
    ensures Swings(Pass(board))
  {
    assert Passes(board, 0) == board && Passes(board, 1) == Pass(Passes(board, 0));
    PassesKeepIds(board, 1);
    hide Passes, Pass, IsSwingingAfter, IsCanonical, IsSwinging;
    var i, a, b :| 0 <= i < |board| && IsSwinging(board, board[i], a, b);
    SwingingAfter(board, 0, i, a, b);
    SwingStep(board, 0, i, a, b);
    SwingingAfter(board, 1, i, b, a);
  }

  lemma {:induction false} SwingingKeepsMoving(tasks: seq<Task>, count: nat, i: nat, a: string, b: string)
    requires i < |tasks| && a != b && IsSwingingAfter(tasks, 1, i, a, b)
    ensures ParentAfter(tasks, count + 2, i) != ParentAfter(tasks, count + 1, i)
  {
    hide ParentAfter, IsSwingingAfter;
    SwingingStandsOn(tasks, count, i, a, b);
    SwingingStandsOn(tasks, count + 1, i, a, b);
  }

  lemma {:induction false} SwingingStandsOn(tasks: seq<Task>, count: nat, i: nat, a: string, b: string)
    requires i < |tasks| && IsSwingingAfter(tasks, 1, i, a, b)
    ensures ParentAfter(tasks, count + 1, i) == Some(if count % 2 == 0 then a else b)
  {
    hide ParentAfter, IsRing, ComesFrom;
    SwingsForEver(tasks, count, i, a, b);
  }

  // ----- Every card that still moves in the sixth pass swings -----

  ghost predicate Moves(tasks: seq<Task>, count: nat, i: nat)
    requires i < |tasks|
  {
    ParentAfter(tasks, count + 1, i) != ParentAfter(tasks, count, i)
  }

  /** Before pass `count + 1` the card stands below one of its sources. */
  ghost predicate IsBelowSource(tasks: seq<Task>, count: nat, i: nat)
    requires i < |tasks|
  {
    ParentAfter(tasks, count, i).Some? && ComesFrom(tasks[i], ParentAfter(tasks, count, i).value)
  }

  lemma {:induction false} MoverWasBelowSource(tasks: seq<Task>, count: nat, i: nat)
    requires i < |tasks| && Moves(tasks, count, i)
    ensures IsBelowSource(tasks, count, i)
    ensures count > 0 ==> IsBelowSource(tasks, count - 1, i)
  {
    hide ParentAfter, ComesFrom, Beside;
    MoveRule(tasks, count, i);
    if count > 0 {
      MoveRule(tasks, count - 1, i);
    }
  }

  /** From the third pass on, a card that moves has moved in the pass before. */
  lemma {:induction false} MoverMovedBefore(tasks: seq<Task>, count: nat, i: nat)
    requires i < |tasks| && count > 1 && Moves(tasks, count, i)
    ensures Moves(tasks, count - 1, i)
  {
    hide ParentAfter, ComesFrom, IsFrom, ParentOf, IsSubtaskAfter;
    MoverWasBelowSource(tasks, count, i);
    MoveRule(tasks, count - 1, i);
    MoveRule(tasks, count, i);
    if !Moves(tasks, count - 1, i) {
      var a := ParentAfter(tasks, count, i).value;
      PointStep(tasks, count - 1, a, a, a);
    }
  }

  /** A card has at most two sources. */
  lemma {:induction false} TwoSources(card: Task, a: string, b: string, c: string)
    requires ComesFrom(card, a) && ComesFrom(card, b) && ComesFrom(card, c) && a != b && b != c
    ensures a == c
  {
  }

  /** Where a card has been that moves in the sixth pass: to and fro between two sources, `start` first. */
  ghost predicate WentToAndFro(tasks: seq<Task>, start: string, a: string, b: string)
  {
    && a != b && start in {a, b} && Beside(tasks, 0, start) == Some(a)
    && Beside(tasks, 1, a) == Some(b) && Beside(tasks, 2, b) == Some(a)
    && Beside(tasks, 3, a) == Some(b) && Beside(tasks, 4, b) == Some(a)
    && Beside(tasks, 5, a) != Some(a)
  }

  lemma {:induction false} MoverWentToAndFro(tasks: seq<Task>, i: nat) returns (start: string, a: string, b: string)
    requires i < |tasks| && Moves(tasks, 5, i)
    ensures WentToAndFro(tasks, start, a, b)
    ensures ComesFrom(tasks[i], a) && ComesFrom(tasks[i], b) && ParentAfter(tasks, 1, i) == Some(a)
  {
    hide ParentAfter, ComesFrom, Beside;
    MoverPath(tasks, 0, i);
    MoverPath(tasks, 1, i);
    MoverPath(tasks, 2, i);
    MoverPath(tasks, 3, i);
    MoverPath(tasks, 4, i);
    MoverPath(tasks, 5, i);
    start, a, b := ParentAfter(tasks, 0, i).value, ParentAfter(tasks, 1, i).value, ParentAfter(tasks, 2, i).value;
    TwoSources(tasks[i], a, b, ParentAfter(tasks, 3, i).value);
    TwoSources(tasks[i], b, a, ParentAfter(tasks, 4, i).value);
    TwoSources(tasks[i], a, b, ParentAfter(tasks, 5, i).value);
    if start != a {
      TwoSources(tasks[i], start, a, b);
    }
  }

  /** Before each of the passes the card stands below a source, and from the second on it leaves it. */
  lemma {:induction false} MoverPath(tasks: seq<Task>, count: nat, i: nat)
    requires i < |tasks| && count <= 5 && Moves(tasks, 5, i)
    ensures IsBelowSource(tasks, count, i)
    ensures ParentAfter(tasks, count + 1, i) == Beside(tasks, count, ParentAfter(tasks, count, i).value)
    ensures count > 0 ==> ParentAfter(tasks, count + 1, i) != ParentAfter(tasks, count, i)
    decreases 5 - count
  {
    hide ParentAfter, ComesFrom, Beside;
    if count == 5 {
      MoverWasBelowSource(tasks, count, i);
    } else {
      MoverPath(tasks, count + 1, i);
      if count > 0 {
        MoverMovedBefore(tasks, count + 1, i);
      }
      MoverWasBelowSource(tasks, count + 1, i);
    }
    MoveRule(tasks, count, i);
  }

  /** The second source is a subtask from the first pass on, since it is one after the second, below a subtask. */
  lemma {:induction false} BothAreSubtasks(tasks: seq<Task>, start: string, a: string, b: string)
    requires WentToAndFro(tasks, start, a, b)
    ensures IsSubtaskAfter(tasks, 1, a) && IsSubtaskAfter(tasks, 1, b) && IsSubtaskAfter(tasks, 2, b)
    ensures IsSubtaskAfter(tasks, 3, a)
    ensures ParentOf(tasks, 1, a) == Some(b) && ParentOf(tasks, 2, b) == Some(a)
    ensures ParentOf(tasks, 3, a) == Some(b) && ParentOf(tasks, 4, b) == Some(a)
  {
    hide ParentOf, IsSubtaskAfter;
    BelowSubtaskIsKept(tasks, 1, b, a);
  }

  /** If the first source does not come from the second, the two are a pair. */
  lemma {:induction false} RestingSourcesAreAPair(tasks: seq<Task>, start: string, a: string, b: string)
    requires WentToAndFro(tasks, start, a, b) && !IsFrom(tasks, a, b)
    ensures Beside(tasks, 1, b) == Some(a) && !IsFrom(tasks, b, a)
  {
    hide ParentOf, IsSubtaskAfter, IsFrom;
    BothAreSubtasks(tasks, start, a, b);
    MoveRuleById(tasks, 1, a);
    MoveRuleById(tasks, 1, b);
    BelowSubtaskIsKept(tasks, 1, a, b);
    MoveRuleById(tasks, 2, b);
    MoveRuleById(tasks, 3, b);
    MoveRuleById(tasks, 0, a);
    MoveRuleById(tasks, 0, b);
  }

  /** If it does, a third task completes the ring, and all of them come from each other. */
  lemma {:induction false} MovingSourcesAreATriple(
    tasks: seq<Task>, start: string, a: string, b: string) returns (c: string)
    requires WentToAndFro(tasks, start, a, b) && IsFrom(tasks, a, b)
    ensures c !in {a, b} && Beside(tasks, 1, b) == Some(c) && Beside(tasks, 1, c) == Some(a)
    ensures IsFrom(tasks, a, c) && IsFrom(tasks, b, c) && IsFrom(tasks, c, a)
    ensures IsFrom(tasks, b, a) && IsFrom(tasks, c, b)
  {
    hide ParentOf, IsSubtaskAfter, IsFrom;
    BothAreSubtasks(tasks, start, a, b);
    MoveRuleById(tasks, 1, a);
    MoveRuleById(tasks, 2, a);
    MoveRuleById(tasks, 1, b);
    c := ParentOf(tasks, 1, b).value;
    MoveRuleById(tasks, 1, c);
    BelowSubtaskIsKept(tasks, 1, a, c);
    SecondMovesToo(tasks, start, a, b);
    MoveRuleById(tasks, 2, b);
    MoveRuleById(tasks, 3, b);
    MoveRuleById(tasks, 2, c);
  }

  /** Were the second source to rest below the first, the first would come to rest below itself, and the card too. */
  lemma {:induction false} SecondMovesToo(tasks: seq<Task>, start: string, a: string, b: string)
    requires WentToAndFro(tasks, start, a, b) && IsFrom(tasks, a, b) && IsSubtaskAfter(tasks, 2, a)
    ensures IsFrom(tasks, b, a)
  {
    hide ParentOf, IsSubtaskAfter, IsFrom;
    BothAreSubtasks(tasks, start, a, b);
    if !IsFrom(tasks, b, a) {
      PointStep(tasks, 2, b, a, a);
      PointStep(tasks, 3, a, b, a);
      PointStep(tasks, 4, a, a, a);
    }
  }

  /** Whatever still moves in the sixth pass has been swinging since the first. */
  lemma {:induction false} LateMoversSwing(tasks: seq<Task>, i: nat)
    requires i < |tasks| && Moves(tasks, 5, i)
    ensures Swings(Pass(tasks))
  {
    assert Passes(tasks, 1) == Pass(Passes(tasks, 0)) == Pass(tasks);
    var start, a, b := MoverWentToAndFro(tasks, i);
    hide Passes, Pass, IsPair, IsTriple, Beside, WentToAndFro, IsSwinging, Moves, ParentAfter, ComesFrom;
    if IsFrom(tasks, a, b) {
      var c := MovingSourcesAreATriple(tasks, start, a, b);
      WentFirst(tasks, start, a, b);
      TripleAfter(tasks, 1, a, b, c);
    } else {
      RestingSourcesAreAPair(tasks, start, a, b);
      WentFirst(tasks, start, a, b);
      PairAfter(tasks, 1, a, b);
    }
    SwingingAfter(tasks, 1, i, a, b);
  }

  lemma {:induction false} WentFirst(tasks: seq<Task>, start: string, a: string, b: string)
    requires WentToAndFro(tasks, start, a, b)
    ensures a != b && Beside(tasks, 1, a) == Some(b)
  {
  }
}
