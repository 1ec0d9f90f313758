/**
 What a second approval repair would do, told on the board before the first. Ids may
 repeat: a task that fails the walk gets the first bearer of its id blocked, and what
 hangs below that one fails in its turn.
 */
module BoardSecondRepair {
  import opened Wrappers
  import opened Board
  import opened BoardApproval

  /** Some task that bears the id fails the walk, so the first bearer is blocked. */
  predicate IsHit(tasks: seq<Task>, id: string)
  {
    LastObstacle(tasks, |tasks|, id).Some?
  }

  lemma {:induction false} LastObstacleIff(tasks: seq<Task>, count: nat, id: string)
    requires count <= |tasks|
    ensures LastObstacle(tasks, count, id).Some?
            <==> exists i :: 0 <= i < count && tasks[i].id == id && MustBeBlocked(tasks, tasks[i])
  {
    hide TaskObstacle, IsActive;
    if count > 0 {
      LastObstacleIff(tasks, count - 1, id);
    }
  }

  /** The effect of the repair on one task. */
  lemma {:induction false} RepairedAt(tasks: seq<Task>, i: nat)
    requires i < |tasks|
    ensures var obstacle := LastObstacle(tasks, |tasks|, tasks[i].id);
            Repaired(tasks)[i] ==
            if IsFirstBearer(tasks, i) && obstacle.Some? then Block(tasks[i], obstacle.value) else tasks[i]
  {
    hide BlockEach, Invalid, LastObstacle, Block;
    RepairedExactly(tasks, |tasks|, i);
  }

  lemma {:induction false} FindRepaired(tasks: seq<Task>, id: string)
    ensures Find(tasks, id).None? <==> Find(Repaired(tasks), id).None?
    ensures Find(tasks, id).Some? ==>
              var obstacle := LastObstacle(tasks, |tasks|, id);
              var task := Find(tasks, id).value;
              Find(Repaired(tasks), id) == Some(if obstacle.Some? then Block(task, obstacle.value) else task)
  {
    BlockEachBlocksFirstBearers(tasks, Invalid(tasks, |tasks|));
    SameIdsSameIndex(Repaired(tasks), tasks, id);
    if FindIndex(tasks, id).Some? {
      RepairedAt(tasks, FindIndex(tasks, id).value);
    }
    hide Repaired, LastObstacle, Block, CanonicalStatus;
  }

  // ----- The second walk, on the board before the first repair -----

  /** The walk that takes every hit id for blocked. */
  function SecondObstacleFrom(
    tasks: seq<Task>, current: Option<string>, childRequired: bool, visited: set<string>): Option<Obstacle>
    decreases |Ids(tasks) - visited|
  {
    if current.None? then None
    else
      var parentId := current.value;
      if parentId in visited then Some(Obstacle(parentId, "hierarchy cycle"))
      else
        var found := Find(tasks, parentId);
        if found.None? then Some(Obstacle(parentId, "missing parent"))
        else
          var parent := found.value;
          VisitShrinks(tasks, parentId, visited);
          if IsHit(tasks, parentId) then Some(Obstacle(parent.id, StatusName(Blocked)))
          else if !LetsThrough(parent, childRequired)
          then Some(Obstacle(parent.id, StatusName(CanonicalStatus(parent.status))))
          else SecondObstacleFrom(tasks, parent.hierarchy.parentId, parent.hierarchy.required, visited + {parentId})
  }

  function SecondObstacle(tasks: seq<Task>, task: Task): Option<Obstacle>
  {
    SecondObstacleFrom(tasks, task.hierarchy.parentId, task.hierarchy.required, {})
  }

  /** It finds what the walk finds on the repaired board. */
  lemma {:induction false} SecondWalkIsWalk(
    tasks: seq<Task>, current: Option<string>, childRequired: bool, visited: set<string>)
    ensures SecondObstacleFrom(tasks, current, childRequired, visited)
         == ObstacleFrom(Repaired(tasks), current, childRequired, visited)
    decreases |Ids(tasks) - visited|
  {
    hide Repaired, LastObstacle, CanonicalStatus, StatusName, BlockReason, LetsThrough;
    if current.Some? && current.value !in visited {
      FindRepaired(tasks, current.value);
      if Find(tasks, current.value).Some? {
        var parent := Find(tasks, current.value).value;
        if IsHit(tasks, current.value) {
          BlockedIsInert(parent, LastObstacle(tasks, |tasks|, current.value).value, childRequired);
        } else {
          VisitShrinks(tasks, current.value, visited);
          SecondWalkIsWalk(tasks, parent.hierarchy.parentId, parent.hierarchy.required, visited + {current.value});
        }
      }
    }
  }

  /** The task is still active after the repair, and fails the walk then. */
  predicate FailsAgain(tasks: seq<Task>, i: nat)
    requires i < |tasks|
  {
    && IsActive(tasks[i]) && !(IsFirstBearer(tasks, i) && IsHit(tasks, tasks[i].id))
    && SecondObstacle(tasks, tasks[i]).Some?
  }

  lemma {:induction false} FailsAgainIff(tasks: seq<Task>, i: nat)
    requires i < |tasks|
    ensures FailsAgain(tasks, i) <==> MustBeBlocked(Repaired(tasks), Repaired(tasks)[i])
    ensures SecondObstacle(tasks, tasks[i]) == TaskObstacle(Repaired(tasks), Repaired(tasks)[i])
  {
    hide Repaired, LastObstacle, StatusName, BlockReason, IsFirstBearer, SecondObstacleFrom, ObstacleFrom;
    RepairedAt(tasks, i);
    SecondWalkIsWalk(tasks, tasks[i].hierarchy.parentId, tasks[i].hierarchy.required, {});
    if IsFirstBearer(tasks, i) && IsHit(tasks, tasks[i].id) {
      BlockedIsInert(tasks[i], LastObstacle(tasks, |tasks|, tasks[i].id).value, true);
    }
    hide CanonicalStatus;
  }

  /** What stops the last of the first `count` tasks that bears the id and fails again. */
  function LastSecondObstacle(tasks: seq<Task>, count: nat, id: string): Option<Obstacle>
    requires count <= |tasks|
  {
    if count == 0 then None
    else if tasks[count - 1].id == id && FailsAgain(tasks, count - 1)
    then SecondObstacle(tasks, tasks[count - 1])
    else LastSecondObstacle(tasks, count - 1, id)
  }

  lemma {:induction false} LastSecondObstacleIsLast(tasks: seq<Task>, count: nat, id: string)
    requires count <= |tasks|
    ensures LastSecondObstacle(tasks, count, id) == LastObstacle(Repaired(tasks), count, id)
  {
    hide Repaired, MustBeBlocked, FailsAgain, SecondObstacle, TaskObstacle;
    if count > 0 {
      LastSecondObstacleIsLast(tasks, count - 1, id);
      FailsAgainIff(tasks, count - 1);
      RepairKeepsId(tasks, count - 1);
    }
  }

  lemma {:induction false} RepairKeepsId(tasks: seq<Task>, i: nat)
    requires i < |tasks|
    ensures Repaired(tasks)[i].id == tasks[i].id
    ensures IsFirstBearer(Repaired(tasks), i) <==> IsFirstBearer(tasks, i)
  {
    BlockEachBlocksFirstBearers(tasks, Invalid(tasks, |tasks|));
    SameIdsSameIndex(Repaired(tasks), tasks, tasks[i].id);
    hide Repaired, FindIndex;
  }

  // ----- When one repair is enough -----

  /**
   Where a bearer of an id would fail again, the first bearer has by then been blocked
   for the same reason, or stood blocked for it from the start.
   */
  predicate OneRepairIsEnough(tasks: seq<Task>)
  {
    forall i | 0 <= i < |tasks| && IsFirstBearer(tasks, i) :: IsDoneWith(tasks, i)
  }

  predicate IsDoneWith(tasks: seq<Task>, i: nat)
    requires i < |tasks|
  {
    var once, again := LastObstacle(tasks, |tasks|, tasks[i].id), LastSecondObstacle(tasks, |tasks|, tasks[i].id);
    again.Some? ==>
      if once.Some? then BlockReason(once.value) == BlockReason(again.value)
      else tasks[i] == Block(tasks[i], again.value)
  }

  lemma {:induction false} IsDoneWithIff(tasks: seq<Task>, i: nat)
    requires i < |tasks| && IsFirstBearer(tasks, i)
    ensures var board := Repaired(tasks);
            var obstacle := LastObstacle(board, |board|, board[i].id);
            IsDoneWith(tasks, i) <==> (obstacle.Some? ==> board[i] == Block(board[i], obstacle.value))
  {
    hide Repaired, LastObstacle, LastSecondObstacle, BlockReason, IsFirstBearer;
    RepairedAt(tasks, i);
    RepairKeepsId(tasks, i);
    LastSecondObstacleIsLast(tasks, |tasks|, tasks[i].id);
  }

  /** A second repair changes nothing exactly if that is so, whatever the ids and the parent links. */
  lemma {:induction false} RepairIsIdempotentIff(tasks: seq<Task>)
    ensures Repaired(Repaired(tasks)) == Repaired(tasks) <==> OneRepairIsEnough(tasks)
  {
    hide Repaired, LastObstacle, Block, IsDoneWith, IsFirstBearer;
    var board := Repaired(tasks);
    RepairKeepsIff(board);
    forall i | 0 <= i < |tasks|
      ensures IsFirstBearer(board, i) <==> IsFirstBearer(tasks, i)
      ensures IsFirstBearer(tasks, i) ==>
                var obstacle := LastObstacle(board, |board|, board[i].id);
                IsDoneWith(tasks, i) <==> (obstacle.Some? ==> board[i] == Block(board[i], obstacle.value))
    {
      RepairKeepsId(tasks, i);
      if IsFirstBearer(tasks, i) {
        IsDoneWithIff(tasks, i);
      }
    }
  }

  /** So failing tasks that are first bearers are enough. */
  lemma {:induction false} FailingAreFirstSuffices(tasks: seq<Task>)
    requires FailingAreFirst(tasks)
    ensures OneRepairIsEnough(tasks)
  {
    hide Repaired, OneRepairIsEnough, FailingAreFirst;
    RepairIsIdempotent(tasks);
    RepairIsIdempotentIff(tasks);
  }

  // ----- Who is spared -----

  /** An approved chain of ancestors on which no id is hit. */
  ghost predicate IsSparedChain(tasks: seq<Task>, current: Option<string>, childRequired: bool, chain: seq<Task>)
  {
    IsApprovedChain(tasks, current, childRequired, chain) && forall k | 0 <= k < |chain| :: !IsHit(tasks, chain[k].id)
  }

  ghost predicate IsSpared(tasks: seq<Task>, task: Task)
  {
    exists chain :: IsSparedChain(tasks, task.hierarchy.parentId, task.hierarchy.required, chain)
  }

  /** The chains of the repaired board are the spared ones of the board before. */
  lemma {:induction false} SparedChainIff(
    tasks: seq<Task>, current: Option<string>, childRequired: bool, chain: seq<Task>)
    ensures IsApprovedChain(Repaired(tasks), current, childRequired, chain)
            <==> IsSparedChain(tasks, current, childRequired, chain)
    decreases |chain|
  {
    hide Repaired, LetsThrough, IsHit, Block, CanonicalStatus;
    if chain != [] && current.Some? {
      var parent := chain[0].hierarchy;
      SparedChainIff(tasks, parent.parentId, parent.required, chain[1..]);
      FindHit(tasks, current.value, childRequired);
      SparedChainStep(tasks, current, childRequired, chain);
    }
  }

  lemma {:induction false} FindHit(tasks: seq<Task>, id: string, childRequired: bool)
    ensures var before, after := Find(tasks, id), Find(Repaired(tasks), id);
            if before.None? then after.None?
            else if IsHit(tasks, id) then after.Some? && !LetsThrough(after.value, childRequired)
            else after == before
    ensures Find(tasks, id).Some? ==> Find(tasks, id).value.id == id
  {
    hide Repaired, LastObstacle, LetsThrough, Block;
    FindRepaired(tasks, id);
    if Find(tasks, id).Some? && IsHit(tasks, id) {
      BlockedIsInert(Find(tasks, id).value, LastObstacle(tasks, |tasks|, id).value, childRequired);
    }
  }

  lemma {:induction false} SparedChainStep(
    tasks: seq<Task>, current: Option<string>, childRequired: bool, chain: seq<Task>)
    requires chain != [] && current.Some?
    ensures IsSparedChain(tasks, current, childRequired, chain) <==>
              && Find(tasks, current.value) == Some(chain[0]) && LetsThrough(chain[0], childRequired)
              && !IsHit(tasks, chain[0].id)
              && IsSparedChain(tasks, chain[0].hierarchy.parentId, chain[0].hierarchy.required, chain[1..])
  {
    hide LetsThrough, IsHit, Find;
    assert forall k | 0 <= k < |chain| :: chain[k] == if k == 0 then chain[0] else chain[1..][k - 1];
  }

  lemma {:induction false} ApprovedAfterRepairIff(tasks: seq<Task>, task: Task)
    ensures AncestorsApprove(Repaired(tasks), task) <==> IsSpared(tasks, task)
  {
    hide Repaired, IsApprovedChain, IsSparedChain;
    var parent := task.hierarchy;
    forall chain
      ensures IsApprovedChain(Repaired(tasks), parent.parentId, parent.required, chain)
              <==> IsSparedChain(tasks, parent.parentId, parent.required, chain)
    {
      SparedChainIff(tasks, parent.parentId, parent.required, chain);
    }
  }

  lemma {:induction false} SparedIff(tasks: seq<Task>, task: Task)
    ensures SecondObstacle(tasks, task).None? <==> IsSpared(tasks, task)
  {
    hide Repaired, IsSpared, AncestorsApprove, SecondObstacleFrom, ObstacleFrom;
    ApprovedAfterRepairIff(tasks, task);
    ObstacleIffUnapproved(Repaired(tasks), task);
    SecondWalkIsWalk(tasks, task.hierarchy.parentId, task.hierarchy.required, {});
  }

  /** If the task is an active first bearer and its id is not hit, every active bearer of the id is spared. */
  ghost predicate BearersAreSpared(tasks: seq<Task>, i: nat)
    requires i < |tasks|
  {
    IsFirstBearer(tasks, i) && IsActive(tasks[i]) && !IsHit(tasks, tasks[i].id) ==>
      forall j | 0 <= j < |tasks| && tasks[i].id == tasks[j].id && IsActive(tasks[j]) :: IsSpared(tasks, tasks[j])
  }

  ghost predicate RemainingAreSpared(tasks: seq<Task>)
  {
    forall i | 0 <= i < |tasks| :: BearersAreSpared(tasks, i)
  }

  /** A second repair blocks nobody else exactly if every active bearer of such an id is spared. */
  lemma {:induction false} SecondRepairBlocksNobodyIff(tasks: seq<Task>)
    ensures var once, twice := Repaired(tasks), Repaired(Repaired(tasks));
            (forall i | 0 <= i < |tasks| :: IsActive(twice[i]) <==> IsActive(once[i])) <==> RemainingAreSpared(tasks)
  {
    hide Repaired, IsActive, BearersAreSpared;
    var once, twice := Repaired(tasks), Repaired(Repaired(tasks));
    forall i | 0 <= i < |tasks|
      ensures (IsActive(twice[i]) <==> IsActive(once[i])) <==> BearersAreSpared(tasks, i)
    {
      StaysActiveIff(tasks, i);
    }
  }

  lemma {:induction false} StaysActiveIff(tasks: seq<Task>, i: nat)
    requires i < |tasks|
    ensures (IsActive(Repaired(Repaired(tasks))[i]) <==> IsActive(Repaired(tasks)[i])) <==> BearersAreSpared(tasks, i)
  {
    hide Repaired, IsActive, IsSpared, IsFirstBearer, LastObstacle;
    var once := Repaired(tasks);
    ActiveAfterRepairIff(tasks, i);
    ActiveAfterRepairIff(once, i);
    RepairKeepsId(tasks, i);
    if IsActive(once[i]) && IsFirstBearer(tasks, i) {
      AgainIff(tasks, tasks[i].id);
      LastObstacleIff(once, |once|, tasks[i].id);
    }
  }

  lemma {:induction false} ActiveAfterRepairIff(tasks: seq<Task>, i: nat)
    requires i < |tasks|
    ensures IsActive(Repaired(tasks)[i])
            <==> IsActive(tasks[i]) && !(IsFirstBearer(tasks, i) && IsHit(tasks, tasks[i].id))
  {
    hide Repaired, LastObstacle, IsFirstBearer, IsActive, Block;
    RepairedAt(tasks, i);
    if IsFirstBearer(tasks, i) && IsHit(tasks, tasks[i].id) {
      BlockedIsInert(tasks[i], LastObstacle(tasks, |tasks|, tasks[i].id).value, true);
    }
  }

  /** With the id not hit, some bearer fails again exactly if some active bearer is not spared. */
  lemma {:induction false} AgainIff(tasks: seq<Task>, id: string)
    requires !IsHit(tasks, id)
    ensures IsHit(Repaired(tasks), id)
            <==> exists j :: 0 <= j < |tasks| && tasks[j].id == id && IsActive(tasks[j]) && !IsSpared(tasks, tasks[j])
  {
    hide Repaired, IsActive, IsSpared, IsFirstBearer, LastObstacle, MustBeBlocked, SecondObstacle;
    var once := Repaired(tasks);
    LastObstacleIff(once, |once|, id);
    forall j | 0 <= j < |tasks|
      ensures once[j].id == tasks[j].id
      ensures tasks[j].id == id ==>
                (MustBeBlocked(once, once[j]) <==> IsActive(tasks[j]) && !IsSpared(tasks, tasks[j]))
    {
      RepairKeepsId(tasks, j);
      FailsAgainIff(tasks, j);
      SparedIff(tasks, tasks[j]);
    }
  }

  // ----- What the repair looks at -----

  /** Two versions of a task that agree on all that the repair reads or writes. */
  predicate SameForRepair(a: Task, b: Task)
  {
    && a.id == b.id && a.status == b.status && a.error == b.error && a.startedAt == b.startedAt
    && a.completedAt == b.completedAt && a.providerSessionId == b.providerSessionId
    && a.supersededBy == b.supersededBy && a.isResearch == b.isResearch
    && a.hierarchy.parentId == b.hierarchy.parentId && a.hierarchy.required == b.hierarchy.required
    && a.hierarchy.researchAccepted == b.hierarchy.researchAccepted
  }

  ghost predicate SameBoardForRepair(a: seq<Task>, b: seq<Task>)
  {
    |a| == |b| && forall i | 0 <= i < |a| :: SameForRepair(a[i], b[i])
  }

  lemma {:induction false} FindSame(a: seq<Task>, b: seq<Task>, id: string)
    requires SameBoardForRepair(a, b)
    ensures FindIndex(a, id) == FindIndex(b, id)
    ensures Find(a, id).Some? ==> Find(b, id).Some? && SameForRepair(Find(a, id).value, Find(b, id).value)
  {
    SameIdsSameIndex(a, b, id);
    hide FindIndex;
  }

  lemma {:induction false} SameWalk(
    a: seq<Task>, b: seq<Task>, current: Option<string>, childRequired: bool, visited: set<string>)
    requires SameBoardForRepair(a, b)
    ensures ObstacleFrom(a, current, childRequired, visited) == ObstacleFrom(b, current, childRequired, visited)
    decreases |Ids(a) - visited|
  {
    hide StatusName, CanonicalStatus, SameBoardForRepair;
    if current.Some? && current.value !in visited {
      FindSame(a, b, current.value);
      if Find(a, current.value).Some? {
        var parent := Find(a, current.value).value;
        VisitShrinks(a, current.value, visited);
        SameWalk(a, b, parent.hierarchy.parentId, parent.hierarchy.required, visited + {current.value});
      }
    }
  }

  lemma {:induction false} SameFailures(a: seq<Task>, b: seq<Task>, i: nat)
    requires SameBoardForRepair(a, b) && i < |a|
    ensures TaskObstacle(a, a[i]) == TaskObstacle(b, b[i])
    ensures MustBeBlocked(a, a[i]) <==> MustBeBlocked(b, b[i])
    ensures IsFirstBearer(a, i) <==> IsFirstBearer(b, i)
  {
    assert SameForRepair(a[i], b[i]);
    SameWalk(a, b, a[i].hierarchy.parentId, a[i].hierarchy.required, {});
    FindSame(a, b, a[i].id);
    hide ObstacleFrom, CanonicalStatus, FindIndex;
  }

  lemma {:induction false} SameLastObstacle(a: seq<Task>, b: seq<Task>, count: nat, id: string)
    requires SameBoardForRepair(a, b) && count <= |a|
    ensures LastObstacle(a, count, id) == LastObstacle(b, count, id)
  {
    hide MustBeBlocked, TaskObstacle, IsFirstBearer;
    if count > 0 {
      SameLastObstacle(a, b, count - 1, id);
      assert SameForRepair(a[count - 1], b[count - 1]);
      SameFailures(a, b, count - 1);
    }
  }

  lemma {:induction false} SameSecondWalk(
    a: seq<Task>, b: seq<Task>, current: Option<string>, childRequired: bool, visited: set<string>)
    requires SameBoardForRepair(a, b)
    ensures SecondObstacleFrom(a, current, childRequired, visited)
         == SecondObstacleFrom(b, current, childRequired, visited)
    decreases |Ids(a) - visited|
  {
    hide StatusName, CanonicalStatus, LastObstacle;
    if current.Some? && current.value !in visited {
      FindSame(a, b, current.value);
      SameLastObstacle(a, b, |a|, current.value);
      hide SameBoardForRepair;
      if Find(a, current.value).Some? {
        var parent := Find(a, current.value).value;
        VisitShrinks(a, current.value, visited);
        SameSecondWalk(a, b, parent.hierarchy.parentId, parent.hierarchy.required, visited + {current.value});
      }
    }
  }

  lemma {:induction false} SameSecondFailures(a: seq<Task>, b: seq<Task>, i: nat)
    requires SameBoardForRepair(a, b) && i < |a|
    ensures SecondObstacle(a, a[i]) == SecondObstacle(b, b[i])
    ensures FailsAgain(a, i) <==> FailsAgain(b, i)
  {
    assert SameForRepair(a[i], b[i]);
    SameSecondWalk(a, b, a[i].hierarchy.parentId, a[i].hierarchy.required, {});
    SameFailures(a, b, i);
    SameLastObstacle(a, b, |a|, a[i].id);
    hide SecondObstacleFrom, CanonicalStatus, IsFirstBearer, LastObstacle;
  }

  lemma {:induction false} SameLastSecondObstacle(a: seq<Task>, b: seq<Task>, count: nat, id: string)
    requires SameBoardForRepair(a, b) && count <= |a|
    ensures LastSecondObstacle(a, count, id) == LastSecondObstacle(b, count, id)
  {
    hide FailsAgain, SecondObstacle;
    if count > 0 {
      SameLastSecondObstacle(a, b, count - 1, id);
      assert SameForRepair(a[count - 1], b[count - 1]);
      SameSecondFailures(a, b, count - 1);
    }
  }

  /** Both conditions on the repair depend on nothing else. */
  lemma {:induction false} SameConditions(a: seq<Task>, b: seq<Task>)
    requires SameBoardForRepair(a, b)
    ensures FailingAreFirst(a) <==> FailingAreFirst(b)
    ensures OneRepairIsEnough(a) <==> OneRepairIsEnough(b)
  {
    forall i | 0 <= i < |a|
      ensures IsFirstBearer(a, i) <==> IsFirstBearer(b, i)
      ensures MustBeBlocked(a, a[i]) <==> MustBeBlocked(b, b[i])
      ensures IsDoneWith(a, i) <==> IsDoneWith(b, i)
    {
      assert SameForRepair(a[i], b[i]);
      SameFailures(a, b, i);
      SameLastObstacle(a, b, |a|, a[i].id);
      SameLastSecondObstacle(a, b, |a|, a[i].id);
      hide IsFirstBearer, MustBeBlocked, LastObstacle, LastSecondObstacle, BlockReason, StatusName;
    }
    hide IsFirstBearer, MustBeBlocked, IsDoneWith;
  }
}
