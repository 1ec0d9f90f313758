/**
 Approval along the hierarchy. A task may run only if every ancestor up to a root lets
 it; the walk that checks this, and the repair that blocks the tasks which fail it.
 */
module BoardApproval {
  import opened Wrappers
  import opened Text
  import opened Board

  // ----- What approval means -----

  /** Whether a parent lets a child through that is required or optional. */
  predicate LetsThrough(parent: Task, childRequired: bool)
  {
    if RollupCompletionIsSatisfied(parent) then !childRequired && parent.supersededBy.None?
    else IsActive(parent)
  }

  /** `chain` lists the ancestors from `current` to a root, and each lets the one below through. */
  ghost predicate IsApprovedChain(tasks: seq<Task>, current: Option<string>, childRequired: bool, chain: seq<Task>)
    decreases chain
  {
    if chain == [] then current.None?
    else
      && current.Some? && Find(tasks, current.value) == Some(chain[0])
      && LetsThrough(chain[0], childRequired)
      && IsApprovedChain(tasks, chain[0].hierarchy.parentId, chain[0].hierarchy.required, chain[1..])
  }

  /** A finite chain of consenting ancestors leads to a root. */
  ghost predicate ChainExists(tasks: seq<Task>, current: Option<string>, childRequired: bool)
  {
    exists chain :: IsApprovedChain(tasks, current, childRequired, chain)
  }

  ghost predicate AncestorsApprove(tasks: seq<Task>, task: Task)
  {
    ChainExists(tasks, task.hierarchy.parentId, task.hierarchy.required)
  }

  // ----- The walk with its visited set -----

  datatype Obstacle = Obstacle(parentId: string, reason: string)

  /** What stops the walk from `current`, if anything does. */
  function ObstacleFrom(
    tasks: seq<Task>, current: Option<string>, childRequired: bool, visited: set<string>): Option<Obstacle>
    decreases |Ids(tasks) - visited|
  {
    if current.None? then None
    else
      var parentId := current.value;
      if parentId in visited then Some(Obstacle(parentId, "hierarchy cycle"))
      else
        var found := Find(tasks, parentId);
        if found.None? then Some(Obstacle(parentId, "missing parent"))
        else
          var parent := found.value;
          VisitShrinks(tasks, parentId, visited);
          if !LetsThrough(parent, childRequired)
          then Some(Obstacle(parent.id, StatusName(CanonicalStatus(parent.status))))
          else ObstacleFrom(tasks, parent.hierarchy.parentId, parent.hierarchy.required, visited + {parentId})
  }

  function TaskObstacle(tasks: seq<Task>, task: Task): Option<Obstacle>
  {
    ObstacleFrom(tasks, task.hierarchy.parentId, task.hierarchy.required, {})
  }

  lemma {:induction false} VisitShrinks(tasks: seq<Task>, id: string, visited: set<string>)
    requires id !in visited && Find(tasks, id).Some?
    ensures |Ids(tasks) - (visited + {id})| < |Ids(tasks) - visited|
  {
    assert id in Ids(tasks) - visited;
    assert Ids(tasks) - (visited + {id}) == (Ids(tasks) - visited) - {id};
  }

  /** The parent link followed `hops` times; a missing parent has no parent. */
  ghost function Hops(tasks: seq<Task>, current: Option<string>, hops: nat): Option<string>
    decreases hops
  {
    if hops == 0 then current
    else if current.None? then None
    else
      match Find(tasks, current.value)
      case None => None
      case Some(parent) => Hops(tasks, parent.hierarchy.parentId, hops - 1)
  }

  lemma {:induction false} HopsCompose(tasks: seq<Task>, current: Option<string>, m: nat, n: nat)
    ensures Hops(tasks, Hops(tasks, current, m), n) == Hops(tasks, current, m + n)
    decreases m
  {
    if m > 0 && current.Some? && Find(tasks, current.value).Some? {
      HopsCompose(tasks, Find(tasks, current.value).value.hierarchy.parentId, m - 1, n);
    }
  }

  lemma {:induction false} ChainSuffix(
    tasks: seq<Task>, current: Option<string>, childRequired: bool, chain: seq<Task>, k: nat)
    returns (required: bool)
    requires IsApprovedChain(tasks, current, childRequired, chain) && k <= |chain|
    ensures IsApprovedChain(tasks, Hops(tasks, current, k), required, chain[k..])
    decreases k
  {
    if k == 0 {
      assert chain[0..] == chain;
      required := childRequired;
    } else {
      required := ChainSuffix(tasks, chain[0].hierarchy.parentId, chain[0].hierarchy.required, chain[1..], k - 1);
      assert chain[1..][k - 1..] == chain[k..];
    }
  }

  /** No chain to a root starts on a cycle. */
  lemma {:induction false} NoChainOnCycle(
    tasks: seq<Task>, current: Option<string>, childRequired: bool, chain: seq<Task>, period: nat)
    requires current.Some? && period > 0 && Hops(tasks, current, period) == current
    ensures !IsApprovedChain(tasks, current, childRequired, chain)
    decreases |chain|
  {
    if IsApprovedChain(tasks, current, childRequired, chain) {
      if period <= |chain| {
        var required := ChainSuffix(tasks, current, childRequired, chain, period);
        NoChainOnCycle(tasks, current, required, chain[period..], period);
      } else {
        var _ := ChainSuffix(tasks, current, childRequired, chain, |chain|);
        HopsCompose(tasks, current, |chain|, period - |chain|);
      }
    }
  }

  /** The visited ids are those from which some parent links lead back to `current`. */
  ghost predicate VisitedLeadTo(tasks: seq<Task>, visited: set<string>, current: Option<string>)
  {
    forall id | id in visited :: exists hops: nat :: hops > 0 && Hops(tasks, Some(id), hops) == current
  }

  /** The walk reports nothing exactly when a chain of consenting ancestors exists. */
  lemma {:induction false} WalkFindsChain(
    tasks: seq<Task>, current: Option<string>, childRequired: bool, visited: set<string>)
    requires VisitedLeadTo(tasks, visited, current)
    ensures ObstacleFrom(tasks, current, childRequired, visited).None? <==> ChainExists(tasks, current, childRequired)
    decreases |Ids(tasks) - visited|
  {
    if current.None? {
      assert IsApprovedChain(tasks, current, childRequired, []);
    } else if current.value in visited {
      var period: nat :| period > 0 && Hops(tasks, current, period) == current;
      forall chain
        ensures !IsApprovedChain(tasks, current, childRequired, chain)
      {
        NoChainOnCycle(tasks, current, childRequired, chain, period);
      }
    } else if Find(tasks, current.value).Some? {
      var parent := Find(tasks, current.value).value;
      var next, visited' := parent.hierarchy.parentId, visited + {current.value};
      VisitShrinks(tasks, current.value, visited);
      forall id | id in visited'
        ensures exists hops: nat :: hops > 0 && Hops(tasks, Some(id), hops) == next
      {
        assert Hops(tasks, current, 1) == next;
        if id in visited {
          var hops: nat :| hops > 0 && Hops(tasks, Some(id), hops) == current;
          HopsCompose(tasks, Some(id), hops, 1);
        }
      }
      WalkFindsChain(tasks, next, parent.hierarchy.required, visited');
      ChainGoesThroughParent(tasks, current.value, childRequired);
      hide ChainExists, Hops, VisitedLeadTo, LetsThrough;
    } else {
      hide Hops;
    }
  }

  lemma {:induction false} ChainGoesThroughParent(tasks: seq<Task>, id: string, childRequired: bool)
    requires Find(tasks, id).Some?
    ensures var parent := Find(tasks, id).value;
            ChainExists(tasks, Some(id), childRequired)
            <==> (LetsThrough(parent, childRequired)
                  && ChainExists(tasks, parent.hierarchy.parentId, parent.hierarchy.required))
  {
    hide LetsThrough;
    var parent := Find(tasks, id).value;
    var next := parent.hierarchy;
    if chain :| IsApprovedChain(tasks, next.parentId, next.required, chain) {
      assert ([parent] + chain)[1..] == chain;
      assert LetsThrough(parent, childRequired) ==> IsApprovedChain(tasks, Some(id), childRequired, [parent] + chain);
    }
    if chain :| IsApprovedChain(tasks, Some(id), childRequired, chain) {
      assert IsApprovedChain(tasks, next.parentId, next.required, chain[1..]);
    }
  }

  lemma {:induction false} ObstacleIffUnapproved(tasks: seq<Task>, task: Task)
    ensures TaskObstacle(tasks, task).None? <==> AncestorsApprove(tasks, task)
  {
    WalkFindsChain(tasks, task.hierarchy.parentId, task.hierarchy.required, {});
  }

  // ----- The repair, as a function -----

  function BlockReason(obstacle: Obstacle): string
  {
    "Parent " + obstacle.parentId + " is not approved (" + obstacle.reason
    + "); approve the parent before running this item."
  }

  function Block(task: Task, obstacle: Obstacle): Task
  {
    task.(
      status := StatusName(Blocked), startedAt := None, completedAt := None, providerSessionId := None,
      error := Some(BlockReason(obstacle)))
  }

  predicate MustBeBlocked(tasks: seq<Task>, task: Task)
  {
    CanonicalStatus(task.status) != Done && IsActive(task) && TaskObstacle(tasks, task).Some?
  }

  lemma {:induction false} MustBeBlockedIff(tasks: seq<Task>, task: Task)
    ensures MustBeBlocked(tasks, task) <==> IsActive(task) && !AncestorsApprove(tasks, task)
  {
    ObstacleIffUnapproved(tasks, task);
    hide AncestorsApprove, TaskObstacle;
  }

  function Settled(tasks: seq<Task>, task: Task): Task
  {
    if MustBeBlocked(tasks, task) then Block(task, TaskObstacle(tasks, task).value) else task
  }

  function Reconciled(tasks: seq<Task>): seq<Task>
  {
    seq(|tasks|, i requires 0 <= i < |tasks| => Settled(tasks, tasks[i]))
  }

  lemma {:induction false} BlockedIsInert(task: Task, obstacle: Obstacle, childRequired: bool)
    ensures CanonicalStatus(Block(task, obstacle).status) == Blocked
    ensures !IsActive(Block(task, obstacle)) && !LetsThrough(Block(task, obstacle), childRequired)
  {
    CanonicalStatusOfName(Blocked);
  }

  // ----- What the repair achieves -----

  /** An ancestor on an approved chain is never blocked, since its own chain is a suffix. */
  lemma {:induction false} ChainSurvives(
    tasks: seq<Task>, current: Option<string>, childRequired: bool, chain: seq<Task>)
    requires IsApprovedChain(tasks, current, childRequired, chain)
    ensures IsApprovedChain(Reconciled(tasks), current, childRequired, chain)
    decreases chain
  {
    if chain != [] {
      var parent := chain[0];
      ChainSurvives(tasks, parent.hierarchy.parentId, parent.hierarchy.required, chain[1..]);
      ObstacleIffUnapproved(tasks, parent);
      assert AncestorsApprove(tasks, parent);
      SameIdsSameIndex(Reconciled(tasks), tasks, current.value);
    }
  }

  /**
   Settling each task by its own walk: every task still active is approved by its
   ancestors on the new board; the tasks blocked are exactly the active ones that were
   not; and nothing about any other task changes. This holds for any ids and any parent
   links, cycles and missing parents included.
   */
  lemma {:induction false} ReconcileBlocksExactlyTheUnapproved(tasks: seq<Task>, i: nat)
    requires i < |tasks|
    ensures IsActive(Reconciled(tasks)[i]) ==> AncestorsApprove(Reconciled(tasks), Reconciled(tasks)[i])
    ensures IsActive(tasks[i]) && !AncestorsApprove(tasks, tasks[i]) <==> Reconciled(tasks)[i] != tasks[i]
    ensures Reconciled(tasks)[i] != tasks[i] ==> CanonicalStatus(Reconciled(tasks)[i].status) == Blocked
  {
    ObstacleIffUnapproved(tasks, tasks[i]);
    if MustBeBlocked(tasks, tasks[i]) {
      BlockedIsInert(tasks[i], TaskObstacle(tasks, tasks[i]).value, true);
    } else if IsActive(tasks[i]) {
      var hierarchy := tasks[i].hierarchy;
      var chain :| IsApprovedChain(tasks, hierarchy.parentId, hierarchy.required, chain);
      ChainSurvives(tasks, hierarchy.parentId, hierarchy.required, chain);
    }
  }

  lemma {:induction false} ReconcileIsIdempotent(tasks: seq<Task>)
    ensures Reconciled(Reconciled(tasks)) == Reconciled(tasks)
  {
    var once := Reconciled(tasks);
    forall i | 0 <= i < |tasks|
      ensures Reconciled(once)[i] == once[i]
    {
      ReconcileBlocksExactlyTheUnapproved(tasks, i);
      ObstacleIffUnapproved(once, once[i]);
    }
  }

  /** A board that differs from `tasks` only in that some tasks were blocked. */
  ghost predicate OnlyBlocksTasks(tasks: seq<Task>, other: seq<Task>)
  {
    && SameIds(other, tasks)
    && forall i | 0 <= i < |tasks| && other[i] != tasks[i] :: CanonicalStatus(other[i].status) == Blocked
  }

  /** Blocking never approves anything. */
  lemma {:induction false} ChainAvoidsBlocked(
    tasks: seq<Task>, other: seq<Task>, current: Option<string>, childRequired: bool, chain: seq<Task>)
    requires OnlyBlocksTasks(tasks, other)
    requires IsApprovedChain(other, current, childRequired, chain)
    ensures IsApprovedChain(tasks, current, childRequired, chain)
    decreases chain
  {
    if chain != [] {
      ChainAvoidsBlocked(tasks, other, chain[0].hierarchy.parentId, chain[0].hierarchy.required, chain[1..]);
      SameIdsSameIndex(other, tasks, current.value);
    }
  }

  lemma {:induction false} ApprovedBeforeBlocking(tasks: seq<Task>, other: seq<Task>, task: Task)
    requires OnlyBlocksTasks(tasks, other) && AncestorsApprove(other, task)
    ensures AncestorsApprove(tasks, task)
  {
    var hierarchy := task.hierarchy;
    var chain :| IsApprovedChain(other, hierarchy.parentId, hierarchy.required, chain);
    ChainAvoidsBlocked(tasks, other, hierarchy.parentId, hierarchy.required, chain);
  }

  /** No smaller repair exists: blocking any tasks so that only approved active ones are left blocks these too. */
  lemma {:induction false} ReconcileBlocksFewest(tasks: seq<Task>, other: seq<Task>, i: nat)
    requires OnlyBlocksTasks(tasks, other) && i < |tasks|
    requires ActiveAreApproved(other)
    requires Reconciled(tasks)[i] != tasks[i]
    ensures other[i] != tasks[i]
  {
    if other[i] == tasks[i] {
      ApprovedBeforeBlocking(tasks, other, tasks[i]);
      ObstacleIffUnapproved(tasks, tasks[i]);
    }
  }

  /** Every task that may run is approved by its ancestors. */
  ghost predicate ActiveAreApproved(tasks: seq<Task>)
  {
    forall i | 0 <= i < |tasks| && IsActive(tasks[i]) :: AncestorsApprove(tasks, tasks[i])
  }

  // ----- The board object -----

  /** The failing tasks among the first `count`, in order, with what stopped each walk. */
  function Invalid(tasks: seq<Task>, count: nat): (invalid: seq<(string, Obstacle)>)
    requires count <= |tasks|
  {
    if count == 0 then []
    else
      var task := tasks[count - 1];
      Invalid(tasks, count - 1) +
      (if MustBeBlocked(tasks, task) then [(task.id, TaskObstacle(tasks, task).value)] else [])
  }

  /** Blocks, for each entry in turn, the first task with that id. */
  function BlockEach(tasks: seq<Task>, invalid: seq<(string, Obstacle)>): (result: seq<Task>)
    ensures |result| == |tasks|
    ensures forall i | 0 <= i < |tasks| :: result[i].id == tasks[i].id
  {
    if invalid == [] then tasks
    else
      var last := |invalid| - 1;
      var before := BlockEach(tasks, invalid[..last]);
      match FindIndex(before, invalid[last].0)
      case None => before
      case Some(index) => before[index := Block(before[index], invalid[last].1)]
  }

  /** What the repair leaves of the task list. */
  function Repaired(tasks: seq<Task>): (repaired: seq<Task>)
    ensures |repaired| == |tasks|
  {
    BlockEach(tasks, Invalid(tasks, |tasks|))
  }

  predicate IsFirstBearer(tasks: seq<Task>, i: nat)
    requires i < |tasks|
  {
    FindIndex(tasks, tasks[i].id) == Some(i)
  }

  /** Every task that the repair has to block is the first to bear its id. */
  predicate FailingAreFirst(tasks: seq<Task>)
  {
    forall i | 0 <= i < |tasks| :: MustBeBlocked(tasks, tasks[i]) ==> IsFirstBearer(tasks, i)
  }

  /** With unique ids that is so on every board. */
  lemma {:induction false} UniqueIdsSuffice(tasks: seq<Task>)
    requires UniqueIds(tasks)
    ensures (forall i | 0 <= i < |tasks| :: IsFirstBearer(tasks, i)) && FailingAreFirst(tasks)
  {
    forall i | 0 <= i < |tasks|
      ensures IsFirstBearer(tasks, i)
    {
      FindUnique(tasks, i);
    }
  }

  /** Each failing task is itself the one that gets blocked. */
  lemma {:induction false} BlockEachIsReconciled(tasks: seq<Task>, count: nat)
    requires FailingAreFirst(tasks) && count <= |tasks|
    ensures forall i | 0 <= i < |tasks| ::
              BlockEach(tasks, Invalid(tasks, count))[i] == if i < count then Settled(tasks, tasks[i]) else tasks[i]
  {
    hide Settled, BlockEach, Invalid, IsFirstBearer;
    if count == 0 {
      NothingBlocked(tasks);
    } else {
      assert MustBeBlocked(tasks, tasks[count - 1]) ==> IsFirstBearer(tasks, count - 1);
      hide MustBeBlocked;
      BlockEachIsReconciled(tasks, count - 1);
      BlockNext(tasks, count, BlockEach(tasks, Invalid(tasks, count - 1)));
    }
  }

  lemma {:induction false} NothingBlocked(tasks: seq<Task>)
    ensures BlockEach(tasks, Invalid(tasks, 0)) == tasks
  {
  }

  lemma {:induction false} InvalidStep(tasks: seq<Task>, count: nat)
    requires 0 < count <= |tasks|
    ensures var task, before := tasks[count - 1], Invalid(tasks, count - 1);
            if MustBeBlocked(tasks, task)
            then TaskObstacle(tasks, task).Some?
                 && Invalid(tasks, count) == before + [(task.id, TaskObstacle(tasks, task).value)]
            else Invalid(tasks, count) == before
  {
    hide TaskObstacle, IsActive;
  }

  lemma {:induction false} BlockNext(tasks: seq<Task>, count: nat, before: seq<Task>)
    requires 0 < count <= |tasks| && before == BlockEach(tasks, Invalid(tasks, count - 1))
    requires before[count - 1] == tasks[count - 1]
    requires MustBeBlocked(tasks, tasks[count - 1]) ==> IsFirstBearer(tasks, count - 1)
    ensures BlockEach(tasks, Invalid(tasks, count)) == before[count - 1 := Settled(tasks, tasks[count - 1])]
  {
    hide MustBeBlocked, TaskObstacle, BlockEach, Block, Invalid;
    var task := tasks[count - 1];
    InvalidStep(tasks, count);
    if MustBeBlocked(tasks, task) {
      BlockEachPush(tasks, Invalid(tasks, count - 1), task.id, TaskObstacle(tasks, task).value);
      SameIdsSameIndex(before, tasks, task.id);
    }
  }

  lemma {:induction false} BlockEachPush(
    tasks: seq<Task>, invalid: seq<(string, Obstacle)>, id: string, obstacle: Obstacle)
    ensures BlockEach(tasks, invalid + [(id, obstacle)]) ==
            var before := BlockEach(tasks, invalid);
            var found := FindIndex(before, id);
            if found.None? then before else before[found.value := Block(before[found.value], obstacle)]
  {
    assert (invalid + [(id, obstacle)])[..|invalid|] == invalid;
  }

  /** Whatever ids are listed, only first bearers are touched, and they are blocked. */
  lemma {:induction false} BlockEachBlocksFirstBearers(tasks: seq<Task>, invalid: seq<(string, Obstacle)>)
    ensures OnlyBlocksTasks(tasks, BlockEach(tasks, invalid))
    ensures forall i | 0 <= i < |tasks| && !IsFirstBearer(tasks, i) :: BlockEach(tasks, invalid)[i] == tasks[i]
  {
    if invalid != [] {
      var last := |invalid| - 1;
      BlockEachBlocksFirstBearers(tasks, invalid[..last]);
      var before := BlockEach(tasks, invalid[..last]);
      var id := invalid[last].0;
      SameIdsSameIndex(before, tasks, id);
      if FindIndex(before, id).Some? {
        BlockedIsInert(before[FindIndex(before, id).value], invalid[last].1, true);
      }
    }
  }

  /** Blocking by id in place equals settling each task by its own walk exactly when failing tasks are first bearers. */
  lemma {:induction false} RepairedIsReconciledIff(tasks: seq<Task>)
    ensures Repaired(tasks) == Reconciled(tasks) <==> FailingAreFirst(tasks)
  {
    if FailingAreFirst(tasks) {
      BlockEachIsReconciled(tasks, |tasks|);
    } else {
      var i :| 0 <= i < |tasks| && MustBeBlocked(tasks, tasks[i]) && !IsFirstBearer(tasks, i);
      FailingBearerEscapes(tasks, i);
      BlockedIsInert(tasks[i], TaskObstacle(tasks, tasks[i]).value, true);
    }
  }

  /** A failing task behind another bearer of its id stays as it was, active and unapproved. */
  lemma {:induction false} FailingBearerEscapes(tasks: seq<Task>, i: nat)
    requires i < |tasks| && MustBeBlocked(tasks, tasks[i]) && !IsFirstBearer(tasks, i)
    ensures Repaired(tasks)[i] == tasks[i] && IsActive(tasks[i]) && !AncestorsApprove(Repaired(tasks), tasks[i])
  {
    BlockEachBlocksFirstBearers(tasks, Invalid(tasks, |tasks|));
    ObstacleIffUnapproved(tasks, tasks[i]);
    if AncestorsApprove(Repaired(tasks), tasks[i]) {
      ApprovedBeforeBlocking(tasks, Repaired(tasks), tasks[i]);
    }
  }

  /** The repair leaves only approved tasks active exactly when every failing task is the first bearer of its id. */
  lemma {:induction false} RepairApprovesIff(tasks: seq<Task>)
    ensures ActiveAreApproved(Repaired(tasks)) <==> FailingAreFirst(tasks)
  {
    if FailingAreFirst(tasks) {
      RepairedIsReconciledIff(tasks);
      forall i | 0 <= i < |tasks| && IsActive(Reconciled(tasks)[i])
        ensures AncestorsApprove(Reconciled(tasks), Reconciled(tasks)[i])
      {
        ReconcileBlocksExactlyTheUnapproved(tasks, i);
      }
    } else {
      var i :| 0 <= i < |tasks| && MustBeBlocked(tasks, tasks[i]) && !IsFirstBearer(tasks, i);
      FailingBearerEscapes(tasks, i);
    }
  }

  /** A board on which only approved tasks are active is left alone, whatever its ids. */
  lemma {:induction false} ApprovedBoardIsKept(tasks: seq<Task>)
    requires ActiveAreApproved(tasks)
    ensures Repaired(tasks) == tasks
  {
    forall i | 0 <= i < |tasks|
      ensures !MustBeBlocked(tasks, tasks[i])
    {
      MustBeBlockedIff(tasks, tasks[i]);
    }
    hide MustBeBlocked, ActiveAreApproved;
    forall i | 0 <= i < |tasks|
      ensures Repaired(tasks)[i] == tasks[i]
    {
      UnlistedIsKept(tasks, |tasks|, i);
    }
  }

  /** So with failing tasks all first bearers, one run of the repair is enough. */
  lemma {:induction false} RepairIsIdempotent(tasks: seq<Task>)
    requires FailingAreFirst(tasks)
    ensures Repaired(Repaired(tasks)) == Repaired(tasks)
  {
    RepairApprovesIff(tasks);
    ApprovedBoardIsKept(Repaired(tasks));
  }

  /** The first bearer of a failing task's id is blocked, whether or not it is the one that fails. */
  lemma {:induction false} FirstBearerIsBlocked(tasks: seq<Task>, count: nat, i: nat)
    requires i < count <= |tasks| && MustBeBlocked(tasks, tasks[i])
    ensures FindIndex(tasks, tasks[i].id).Some?
    ensures var after := BlockEach(tasks, Invalid(tasks, count));
            CanonicalStatus(after[FindIndex(tasks, tasks[i].id).value].status) == Blocked
  {
    hide MustBeBlocked, BlockEach, Block, Invalid, CanonicalStatus, FindIndex;
    BlockStep(tasks, count);
    if i < count - 1 {
      FirstBearerIsBlocked(tasks, count - 1, i);
    }
  }

  /** The step of `BlockEach` for one more task. */
  lemma {:induction false} BlockStep(tasks: seq<Task>, count: nat)
    requires 0 < count <= |tasks|
    ensures var before, after := BlockEach(tasks, Invalid(tasks, count - 1)), BlockEach(tasks, Invalid(tasks, count));
            var last, first := tasks[count - 1], FindIndex(tasks, tasks[count - 1].id);
            if MustBeBlocked(tasks, last)
            then first.Some? && TaskObstacle(tasks, last).Some?
                 && after == before[first.value := Block(before[first.value], TaskObstacle(tasks, last).value)]
                 && CanonicalStatus(after[first.value].status) == Blocked
            else after == before
  {
    hide MustBeBlocked, BlockEach, Block, Invalid, CanonicalStatus;
    var last, before := tasks[count - 1], Invalid(tasks, count - 1);
    InvalidStep(tasks, count);
    if MustBeBlocked(tasks, last) {
      var obstacle := TaskObstacle(tasks, last).value;
      BlockEachPush(tasks, before, last.id, obstacle);
      SameIdsSameIndex(BlockEach(tasks, before), tasks, last.id);
      BlockedIsInert(BlockEach(tasks, before)[FindIndex(tasks, last.id).value], obstacle, true);
    }
  }

  /** What stops the last of the first `count` tasks that bears the id and fails. */
  function LastObstacle(tasks: seq<Task>, count: nat, id: string): Option<Obstacle>
    requires count <= |tasks|
  {
    if count == 0 then None
    else if tasks[count - 1].id == id && MustBeBlocked(tasks, tasks[count - 1])
    then TaskObstacle(tasks, tasks[count - 1])
    else LastObstacle(tasks, count - 1, id)
  }

  /** All that the repair does, for any ids: first bearers are blocked for what stops the last failing bearer. */
  lemma {:induction false} RepairedExactly(tasks: seq<Task>, count: nat, i: nat)
    requires i < |tasks| && count <= |tasks|
    ensures var obstacle := LastObstacle(tasks, count, tasks[i].id);
            BlockEach(tasks, Invalid(tasks, count))[i] ==
            if IsFirstBearer(tasks, i) && obstacle.Some? then Block(tasks[i], obstacle.value) else tasks[i]
  {
    hide MustBeBlocked, TaskObstacle, BlockEach, Invalid, CanonicalStatus, BlockReason;
    if count > 0 {
      RepairedExactly(tasks, count - 1, i);
      BlockStep(tasks, count);
    } else {
      NothingBlocked(tasks);
    }
  }

  /** Every first bearer of a failing task's id is blocked already, for what stops the last one of them. */
  predicate StandsBlocked(tasks: seq<Task>)
  {
    forall i | 0 <= i < |tasks| && IsFirstBearer(tasks, i) ::
      var obstacle := LastObstacle(tasks, |tasks|, tasks[i].id);
      obstacle.Some? ==> tasks[i] == Block(tasks[i], obstacle.value)
  }

  /** The boards that the repair leaves alone, for any ids. */
  lemma {:induction false} RepairKeepsIff(tasks: seq<Task>)
    ensures Repaired(tasks) == tasks <==> StandsBlocked(tasks)
  {
    hide LastObstacle, IsFirstBearer, Block, BlockEach, Invalid;
    forall i | 0 <= i < |tasks|
      ensures var obstacle := LastObstacle(tasks, |tasks|, tasks[i].id);
              Repaired(tasks)[i] ==
              if IsFirstBearer(tasks, i) && obstacle.Some? then Block(tasks[i], obstacle.value) else tasks[i]
    {
      RepairedExactly(tasks, |tasks|, i);
    }
  }

  /** A task whose id no failing task bears is kept. */
  lemma {:induction false} UnlistedIsKept(tasks: seq<Task>, count: nat, i: nat)
    requires i < |tasks| && count <= |tasks|
    requires forall j | 0 <= j < count && MustBeBlocked(tasks, tasks[j]) :: tasks[j].id != tasks[i].id
    ensures BlockEach(tasks, Invalid(tasks, count))[i] == tasks[i]
  {
    hide MustBeBlocked, BlockEach, Invalid, CanonicalStatus;
    if count > 0 {
      UnlistedIsKept(tasks, count - 1, i);
      BlockStep(tasks, count);
    } else {
      NothingBlocked(tasks);
    }
  }

  /** Two active tasks under one id, a root and one without its parent. */
  predicate IsRepeatedId(good: Task, bad: Task)
  {
    && good.id == bad.id && IsActive(good) && good.hierarchy.parentId.None?
    && IsActive(bad) && bad.hierarchy.parentId == Some(bad.id + "x")
  }

  /** The wrong one of them is blocked, and the failing one stays active. */
  lemma {:induction false} DuplicateIdsBreakReconcile(good: Task, bad: Task)
    requires IsRepeatedId(good, bad)
    ensures var before, after := [good, bad], Repaired([good, bad]);
            && AncestorsApprove(before, good) && CanonicalStatus(after[0].status) == Blocked
            && !AncestorsApprove(before, bad) && after[1] == bad
  {
    OrphanFails([good, bad], bad);
    assert IsApprovedChain([good, bad], None, good.hierarchy.required, []);
    FailingBearerEscapes([good, bad], 1);
    FirstBearerIsBlocked([good, bad], 2, 1);
  }

  lemma {:induction false} OrphanFails(tasks: seq<Task>, task: Task)
    requires IsActive(task) && task.hierarchy.parentId.Some? && Find(tasks, task.hierarchy.parentId.value).None?
    ensures MustBeBlocked(tasks, task)
  {
  }

  /** And one run is not enough then: a child of the wrongly blocked task is blocked by the next. */
  lemma {:induction false} DuplicateIdsNeedAnotherRun(good: Task, bad: Task, child: Task)
    requires IsRepeatedId(good, bad)
    requires IsActive(child) && child.id !in {good.id, bad.id + "x"} && child.hierarchy.parentId == Some(good.id)
    ensures var once := Repaired([good, bad, child]);
            once[2] == child && CanonicalStatus(Repaired(once)[2].status) == Blocked
  {
    hide BlockEach, Invalid;
    var tasks := [good, bad, child];
    var once := Repaired(tasks);
    assert FindIndex(tasks, good.id) == Some(0);
    assert tasks[2] == child && FindIndex(tasks, child.id) == Some(2);
    hide FindIndex, Block, CanonicalStatus, IsActive;
    OrphanFails(tasks, bad);
    RootsAndTheirChildrenPass(tasks, good, child);
    FirstBearerIsBlocked(tasks, 3, 1);
    UnlistedIsKept(tasks, 3, 2);
    SameIdsSameIndex(once, tasks, good.id);
    SameIdsSameIndex(once, tasks, child.id);
    BlockedParentFails(once, child);
    FirstBearerIsBlocked(once, 3, 2);
  }

  lemma {:induction false} RootsAndTheirChildrenPass(tasks: seq<Task>, root: Task, child: Task)
    requires IsActive(root) && root.hierarchy.parentId.None?
    requires child.hierarchy.parentId == Some(root.id) && Find(tasks, root.id) == Some(root)
    ensures !MustBeBlocked(tasks, root) && !MustBeBlocked(tasks, child)
  {
    assert LetsThrough(root, child.hierarchy.required);
    assert ObstacleFrom(tasks, None, root.hierarchy.required, {} + {root.id}).None?;
    assert ObstacleFrom(tasks, Some(root.id), child.hierarchy.required, {}).None?;
  }

  lemma {:induction false} BlockedParentFails(tasks: seq<Task>, child: Task)
    requires IsActive(child) && child.hierarchy.parentId.Some? && Find(tasks, child.hierarchy.parentId.value).Some?
    requires CanonicalStatus(Find(tasks, child.hierarchy.parentId.value).value.status) == Blocked
    ensures MustBeBlocked(tasks, child)
  {
  }

  // ----- The loops of the repair -----

  /** The first loop of the repair, over a snapshot of the tasks. */
  method CollectInvalid(snapshot: seq<Task>) returns (invalid: seq<(string, Obstacle)>)
    ensures invalid == Invalid(snapshot, |snapshot|)
  {
    invalid := [];
    for i := 0 to |snapshot|
      invariant invalid == Invalid(snapshot, i)
    {
      var task := snapshot[i];
      if CanonicalStatus(task.status) != Done && IsActive(task) {
        var obstacle := WalkToObstacle(snapshot, task);
        if obstacle.Some? {
          invalid := invalid + [(task.id, obstacle.value)];
        }
      }
    }
  }

  /** The inner loop of the repair: it stops at the first obstacle and remembers it. */
  method WalkToObstacle(snapshot: seq<Task>, task: Task) returns (obstacle: Option<Obstacle>)
    ensures obstacle == TaskObstacle(snapshot, task)
  {
    var currentId, childRequired := task.hierarchy.parentId, task.hierarchy.required;
    var visited: set<string> := {};
    while currentId.Some?
      invariant TaskObstacle(snapshot, task) == ObstacleFrom(snapshot, currentId, childRequired, visited)
      decreases |Ids(snapshot) - visited|, currentId.Some?
    {
      var parentId := currentId.value;
      if parentId in visited {
        return Some(Obstacle(parentId, "hierarchy cycle"));
      }
      var found := Find(snapshot, parentId);
      if found.None? {
        return Some(Obstacle(parentId, "missing parent"));
      }
      VisitShrinks(snapshot, parentId, visited);
      visited := visited + {parentId};
      var parent := found.value;
      var parentStatus := CanonicalStatus(parent.status);
      if RollupCompletionIsSatisfied(parent) {
        if childRequired || parent.supersededBy.Some? {
          return Some(Obstacle(parent.id, StatusName(parentStatus)));
        }
      } else if !(parentStatus == Todo || parentStatus == InProgress) {
        return Some(Obstacle(parent.id, StatusName(parentStatus)));
      }
      childRequired := parent.hierarchy.required;
      currentId := parent.hierarchy.parentId;
    }
    return None;
  }
}
