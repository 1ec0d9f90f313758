/** What the approval walk decides and reports, told in the fields of the tasks it passes. */
module BoardWalk {
  import opened Wrappers
  import opened Text
  import opened Board
  import opened BoardApproval

  /**
   A completed parent lets through what is optional, unless it was superseded; research
   counts as completed once it is accepted; any other parent has to be active itself.
   */
  predicate ParentConsents(parent: Task, childRequired: bool)
  {
    if Trim(parent.status) in DONE_TEXTS && (parent.isResearch ==> parent.hierarchy.researchAccepted)
    then !childRequired && parent.supersededBy.None?
    else Trim(parent.status) in ACTIVE_TEXTS
  }

  lemma {:induction false} LetsThroughIff(parent: Task, childRequired: bool)
    ensures LetsThrough(parent, childRequired) <==> ParentConsents(parent, childRequired)
  {
    StatusTextsAreRead(parent);
    hide CanonicalStatus, Trim;
  }

  /** A task is approved if it is a root, or its parent exists, consents to it, and is approved in turn. */
  lemma {:induction false} ApprovedIffParentConsents(tasks: seq<Task>, task: Task)
    ensures AncestorsApprove(tasks, task) <==>
              || task.hierarchy.parentId.None?
              || (&& Find(tasks, task.hierarchy.parentId.value).Some?
                  && var parent := Find(tasks, task.hierarchy.parentId.value).value;
                     ParentConsents(parent, task.hierarchy.required) && AncestorsApprove(tasks, parent))
  {
    var current := task.hierarchy.parentId;
    if current.None? {
      assert IsApprovedChain(tasks, current, task.hierarchy.required, []);
    } else if Find(tasks, current.value).Some? {
      ChainGoesThroughParent(tasks, current.value, task.hierarchy.required);
      LetsThroughIff(Find(tasks, current.value).value, task.hierarchy.required);
    }
    hide LetsThrough, ParentConsents, Find;
  }

  // ----- What the obstacle says -----

  /** Up the parent links from `current` lies an id at which the walk had to stop, for the reason given. */
  ghost predicate IsTrueObstacle(tasks: seq<Task>, current: Option<string>, obstacle: Obstacle)
  {
    && (exists hops: nat :: Hops(tasks, current, hops) == Some(obstacle.parentId))
    && (if Find(tasks, obstacle.parentId).None? then obstacle.reason == "missing parent"
        else
          || (obstacle.reason == "hierarchy cycle"
              && exists period: nat ::
                   period > 0 && Hops(tasks, Some(obstacle.parentId), period) == Some(obstacle.parentId))
          || (var parent := Find(tasks, obstacle.parentId).value;
              obstacle.reason == StatusName(CanonicalStatus(parent.status))
              && !(ParentConsents(parent, true) && ParentConsents(parent, false))))
  }

  lemma {:induction false} ObstacleIsTrue(
    tasks: seq<Task>, current: Option<string>, childRequired: bool, visited: set<string>)
    requires VisitedLeadTo(tasks, visited, current)
    ensures var found := ObstacleFrom(tasks, current, childRequired, visited);
            found.Some? ==> IsTrueObstacle(tasks, current, found.value)
    decreases |Ids(tasks) - visited|
  {
    hide StatusName, CanonicalStatus, LetsThrough, ParentConsents, IsTrueObstacle;
    if current.Some? {
      assert Hops(tasks, current, 0) == current;
      if current.value in visited {
        CycleIsTrue(tasks, current.value);
      } else if Find(tasks, current.value).None? {
        StopIsTrue(tasks, current.value, childRequired);
      } else {
        var parent := Find(tasks, current.value).value;
        StopIsTrue(tasks, current.value, childRequired);
        if LetsThrough(parent, childRequired) {
          var next, visited' := parent.hierarchy.parentId, visited + {current.value};
          VisitShrinks(tasks, current.value, visited);
          VisitedGoOn(tasks, visited, current.value);
          ObstacleIsTrue(tasks, next, parent.hierarchy.required, visited');
          var found := ObstacleFrom(tasks, next, parent.hierarchy.required, visited');
          if found.Some? {
            ObstacleFurtherUp(tasks, current.value, found.value);
          }
        }
      }
    }
  }

  lemma {:induction false} CycleIsTrue(tasks: seq<Task>, id: string)
    requires exists period: nat :: period > 0 && Hops(tasks, Some(id), period) == Some(id)
    ensures IsTrueObstacle(tasks, Some(id), Obstacle(id, "hierarchy cycle"))
  {
    assert Hops(tasks, Some(id), 0) == Some(id);
    var period: nat :| period > 0 && Hops(tasks, Some(id), period) == Some(id);
    CycleHasTask(tasks, id, period);
    hide Hops, StatusName, CanonicalStatus, ParentConsents;
  }

  lemma {:induction false} CycleHasTask(tasks: seq<Task>, id: string, period: nat)
    requires period > 0 && Hops(tasks, Some(id), period) == Some(id)
    ensures Find(tasks, id).Some?
  {
  }

  lemma {:induction false} StopIsTrue(tasks: seq<Task>, id: string, childRequired: bool)
    ensures Find(tasks, id).None? ==> IsTrueObstacle(tasks, Some(id), Obstacle(id, "missing parent"))
    ensures Find(tasks, id).Some? && !LetsThrough(Find(tasks, id).value, childRequired) ==>
              var parent := Find(tasks, id).value;
              IsTrueObstacle(tasks, Some(id), Obstacle(parent.id, StatusName(CanonicalStatus(parent.status))))
  {
    assert Hops(tasks, Some(id), 0) == Some(id);
    if Find(tasks, id).Some? {
      LetsThroughIff(Find(tasks, id).value, childRequired);
    }
    hide Hops, StatusName, CanonicalStatus, ParentConsents, LetsThrough;
  }

  lemma {:induction false} VisitedGoOn(tasks: seq<Task>, visited: set<string>, id: string)
    requires Find(tasks, id).Some? && VisitedLeadTo(tasks, visited, Some(id))
    ensures VisitedLeadTo(tasks, visited + {id}, Find(tasks, id).value.hierarchy.parentId)
  {
    var next := Find(tasks, id).value.hierarchy.parentId;
    assert Hops(tasks, Some(id), 1) == next;
    hide Find;
    forall other | other in visited + {id}
      ensures exists hops: nat :: hops > 0 && Hops(tasks, Some(other), hops) == next
    {
      if other in visited {
        var hops: nat :| hops > 0 && Hops(tasks, Some(other), hops) == Some(id);
        HopsCompose(tasks, Some(other), hops, 1);
      }
    }
  }

  lemma {:induction false} ObstacleFurtherUp(tasks: seq<Task>, id: string, obstacle: Obstacle)
    requires Find(tasks, id).Some? && IsTrueObstacle(tasks, Find(tasks, id).value.hierarchy.parentId, obstacle)
    ensures IsTrueObstacle(tasks, Some(id), obstacle)
  {
    var next := Find(tasks, id).value.hierarchy.parentId;
    assert Hops(tasks, Some(id), 1) == next;
    var hops: nat :| Hops(tasks, next, hops) == Some(obstacle.parentId);
    HopsCompose(tasks, Some(id), 1, hops);
    hide Hops, StatusName, CanonicalStatus, ParentConsents;
  }

  /** What the repair writes into a blocked task is true. */
  lemma {:induction false} TaskObstacleIsTrue(tasks: seq<Task>, task: Task)
    requires TaskObstacle(tasks, task).Some?
    ensures IsTrueObstacle(tasks, task.hierarchy.parentId, TaskObstacle(tasks, task).value)
  {
    ObstacleIsTrue(tasks, task.hierarchy.parentId, task.hierarchy.required, {});
  }
}
