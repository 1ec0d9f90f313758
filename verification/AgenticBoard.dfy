/** The board object, whose methods repair its task list in place. */
module AgenticBoards {
  import opened Wrappers
  import opened Board
  import opened BoardApproval
  import opened BoardLevels
  import opened BoardConvergence
  import opened TaskIds

  class AgenticBoard {
    var tasks: seq<Task>
    var nextTaskSequence: nat

    method TaskAncestorsAreApproved(task: Task) returns (approved: bool)
      ensures approved <==> AncestorsApprove(tasks, task)
    {
      ObstacleIffUnapproved(tasks, task);
      var currentId, childRequired := task.hierarchy.parentId, task.hierarchy.required;
      var visited: set<string> := {};
      while currentId.Some?
        invariant TaskObstacle(tasks, task).None? <==> ObstacleFrom(tasks, currentId, childRequired, visited).None?
        decreases |Ids(tasks) - visited|, currentId.Some?
      {
        var parentId := currentId.value;
        if parentId in visited {
          return false;
        }
        var found := Find(tasks, parentId);
        if found.None? {
          return false;
        }
        VisitShrinks(tasks, parentId, visited);
        visited := visited + {parentId};
        var parent := found.value;
        if RollupCompletionIsSatisfied(parent) {
          if childRequired || parent.supersededBy.Some? {
            return false;
          }
        } else if !IsActive(parent) {
          return false;
        }
        childRequired := parent.hierarchy.required;
        currentId := parent.hierarchy.parentId;
      }
      return true;
    }

    method ReconcileHierarchyApprovalStates()
      modifies this`tasks
      ensures tasks == Repaired(old(tasks))
    {
      var invalid := CollectInvalid(tasks);
      BlockInvalid(invalid);
    }

    /** The second loop of the repair: each listed id blocks the first task that bears it. */
    method BlockInvalid(invalid: seq<(string, Obstacle)>)
      modifies this`tasks
      ensures tasks == BlockEach(old(tasks), invalid)
    {
      hide Block;
      ghost var before := tasks;
      for k := 0 to |invalid|
        invariant tasks == BlockEach(before, invalid[..k])
      {
        var (taskId, obstacle) := invalid[k];
        assert invalid[..k + 1] == invalid[..k] + [(taskId, obstacle)];
        BlockEachPush(before, invalid[..k], taskId, obstacle);
        var index := FindIndex(tasks, taskId);
        if index.Some? {
          tasks := tasks[index.value := Block(tasks[index.value], obstacle)];
        }
      }
      assert invalid[..|invalid|] == invalid;
    }

    method NormalizeBoardHierarchy()
      modifies this`tasks
      ensures tasks == Normalized(old(tasks))
    {
      for pass := 0 to 5
        invariant tasks == Passes(old(tasks), pass)
      {
        NormalizeOnce();
      }
      ReconcileHierarchyApprovalStates();
    }

    /** One pass: each task is rewritten in place, from a snapshot taken before the first. */
    method NormalizeOnce()
      modifies this`tasks
      ensures tasks == Pass(old(tasks))
    {
      hide NormalizeTask;
      var taskSnapshot := tasks;
      for i := 0 to |tasks|
        invariant tasks == Pass(taskSnapshot)[..i] + taskSnapshot[i..]
      {
        OneMoreDone(Pass(taskSnapshot), taskSnapshot, i);
        tasks := tasks[i := NormalizeTask(taskSnapshot, tasks[i])];
      }
    }

    /** The next free numbered id; once the 64-bit counter has run out, a random one. */
    method AllocateTaskId(uuid: string) returns (id: string)
      requires nextTaskSequence <= MAX_SEQUENCE
      modifies this`nextTaskSequence
      ensures nextTaskSequence == Counter(old(nextTaskSequence), [tasks])
      ensures Reached(tasks, old(nextTaskSequence)) < MAX_SEQUENCE ==>
                id == NumberedId(nextTaskSequence) && id !in Ids(tasks)
      ensures Reached(tasks, old(nextTaskSequence)) == MAX_SEQUENCE ==> id == TASK_PREFIX + uuid
    {
      hide NumberedId;
      MaxExistingBounds(tasks);
      ghost var reached := Reached(tasks, nextTaskSequence);
      assert [tasks][..0] == [];
      var maxExisting := MaxExistingSequence(tasks);
      if nextTaskSequence < maxExisting {
        nextTaskSequence := maxExisting;
      }
      while true
        invariant reached <= nextTaskSequence <= MAX_SEQUENCE
        invariant forall taken :: reached < taken <= nextTaskSequence ==> NumberedId(taken) in Ids(tasks)
        decreases MAX_SEQUENCE - nextTaskSequence
      {
        if nextTaskSequence == MAX_SEQUENCE {
          if reached < MAX_SEQUENCE {
            AheadIsFree(tasks, reached + 1);
          }
          return TASK_PREFIX + uuid;
        }
        nextTaskSequence := nextTaskSequence + 1;
        var candidate := NumberedId(nextTaskSequence);
        if candidate !in Ids(tasks) {
          AheadIsFree(tasks, reached + 1);
          return candidate;
        }
      }
    }
  }

  /** A list that is rewritten from the left, one entry further. */
  lemma {:induction false} OneMoreDone<T>(after: seq<T>, before: seq<T>, i: nat)
    requires |after| == |before| && i < |before|
    ensures var now := after[..i] + before[i..];
            now[i] == before[i] && now[i := after[i]] == after[..i + 1] + before[i + 1..]
  {
  }
}
