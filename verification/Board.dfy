/** The board's tasks: the fields that approval and hierarchy normalisation read or write. */
module Board {
  import opened Wrappers
  import opened Text

  // ----- Statuses -----

  datatype Status = Backlog | Todo | InProgress | Blocked | Failed | Done

  function StatusName(status: Status): string
  {
    match status
    case Backlog => "backlog"
    case Todo => "todo"
    case InProgress => "in_progress"
    case Blocked => "blocked"
    case Failed => "failed"
    case Done => "done"
  }

  function CanonicalStatus(status: string): Status
  {
    var name := Trim(status);
    if name == "backlog" then Backlog
    else if name == "todo" || name == "pending" || name == "planned" then Todo
    else if name == "in_progress" || name == "running" || name == "pausing" || name == "cancelling"
            || name == "backlog_generating" then InProgress
    else if name == "blocked" then Blocked
    else if name == "failed" || name == "cancelled" || name == "backlog_failed" then Failed
    else if name == "done" || name == "completed" then Done
    else if name == "qa" || name == "review" then Todo
    else Backlog
  }

  /** Writing a canonical name back and reading it again is stable. */
  lemma {:induction false} CanonicalStatusOfName(status: Status)
    ensures CanonicalStatus(StatusName(status)) == status
  {
    TrimKeeps(StatusName(status));
  }

  // ----- Tasks -----

  datatype Hierarchy = Hierarchy(
    level: string,
    parentId: Option<string>,
    blockedBy: seq<string>,
    executable: bool,
    required: bool,
    scopeVersion: nat,
    researchAccepted: bool)

  /**
   `systemCard` is the disjunction of the seven flags that mark system-made cards, and
   `isResearch` tells whether the task's canonical kind is research; nothing modelled
   here changes the fields they are read from.
   */
  datatype Task = Task(
    id: string,
    status: string,
    error: Option<string>,
    startedAt: Option<int>,
    completedAt: Option<int>,
    providerSessionId: Option<string>,
    supersededBy: Option<string>,
    sourceTaskId: Option<string>,
    sourceQaTaskId: Option<string>,
    systemCard: bool,
    internalValidation: bool,
    isResearch: bool,
    dependsOn: seq<string>,
    hierarchy: Hierarchy)

  /** Todo or in progress: the task may run, or may let its children run. */
  predicate IsActive(task: Task)
  {
    var status := CanonicalStatus(task.status);
    status == Todo || status == InProgress
  }

  predicate RollupCompletionIsSatisfied(task: Task)
  {
    CanonicalStatus(task.status) == Done && !(task.isResearch && !task.hierarchy.researchAccepted)
  }

  /** The texts that mean a task is active, and those that mean it is done. */
  const ACTIVE_TEXTS: set<string> := {
    "todo", "pending", "planned", "qa", "review",
    "in_progress", "running", "pausing", "cancelling", "backlog_generating"}
  const DONE_TEXTS: set<string> := {"done", "completed"}

  lemma {:induction false} StatusTextsAreRead(task: Task)
    ensures IsActive(task) <==> Trim(task.status) in ACTIVE_TEXTS
    ensures CanonicalStatus(task.status) == Done <==> Trim(task.status) in DONE_TEXTS
    ensures CanonicalStatus(task.status) == Blocked <==> Trim(task.status) == "blocked"
    ensures CanonicalStatus(task.status) == Failed <==> Trim(task.status) in {"failed", "cancelled", "backlog_failed"}
  {
    hide Trim;
  }

  // ----- Looking tasks up -----

  ghost predicate UniqueIds(tasks: seq<Task>)
  {
    forall i, j | 0 <= i < j < |tasks| :: tasks[i].id != tasks[j].id
  }

  /** The position of the first task with the id. */
  function FindIndex(tasks: seq<Task>, id: string): (found: Option<nat>)
    ensures found.Some? ==> found.value < |tasks| && tasks[found.value].id == id
    ensures found.Some? ==> forall i | 0 <= i < found.value :: tasks[i].id != id
    ensures found.None? ==> forall i | 0 <= i < |tasks| :: tasks[i].id != id
  {
    if tasks == [] then None
    else if tasks[0].id == id then Some(0)
    else
      match FindIndex(tasks[1..], id)
      case None => None
      case Some(index) => Some(index + 1)
  }

  function Find(tasks: seq<Task>, id: string): (found: Option<Task>)
    ensures found.Some? ==> found.value in tasks && found.value.id == id
    ensures found.None? ==> forall i | 0 <= i < |tasks| :: tasks[i].id != id
  {
    match FindIndex(tasks, id)
    case None => None
    case Some(index) => Some(tasks[index])
  }

  lemma {:induction false} FindUnique(tasks: seq<Task>, i: nat)
    requires UniqueIds(tasks) && i < |tasks|
    ensures FindIndex(tasks, tasks[i].id) == Some(i)
    ensures Find(tasks, tasks[i].id) == Some(tasks[i])
  {
  }

  function Ids(tasks: seq<Task>): set<string>
  {
    set task | task in tasks :: task.id
  }

  ghost predicate SameIds(a: seq<Task>, b: seq<Task>)
  {
    |a| == |b| && forall i | 0 <= i < |a| :: a[i].id == b[i].id
  }

  lemma {:induction false} SameIdsSameIndex(a: seq<Task>, b: seq<Task>, id: string)
    requires SameIds(a, b)
    ensures FindIndex(a, id) == FindIndex(b, id)
  {
    if a != [] {
      SameIdsSameIndex(a[1..], b[1..], id);
    }
  }
}
