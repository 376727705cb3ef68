/**
  The four collections of the tracker and the value domains of their fields.
  Every required field is a plain field; every optional field is an `Option`.
  Document ids are natural numbers handed out by the store.
 */
module Schema {
  import opened Wrappers

  type Id = nat

  datatype ProjectStatus = Active | Blocked | Completed | Planning

  datatype Priority = High | Medium | Low

  datatype TaskStatus = Todo | InProgress | Done | Blocked

  /** The focus lists a task can sit on; no list priority means the backlog. */
  datatype ListPriority = Today | ThisWeek

  datatype Project = Project(
    id: Id,
    name: string,
    slug: string,
    description: string,
    status: ProjectStatus,
    priority: Priority,
    order: int,
    localPath: Option<string>,
    githubPath: Option<string>)

  datatype Task = Task(
    id: Id,
    projectId: Id,
    title: string,
    description: Option<string>,
    status: TaskStatus,
    listPriority: Option<ListPriority>,
    aiPrompt: Option<string>,
    blockedReason: Option<string>,
    order: int,
    completedAt: Option<int>)

  datatype Subtask = Subtask(id: Id, taskId: Id, title: string, done: bool, order: int)

  datatype LogEntry = LogEntry(
    id: Id,
    projectId: Option<Id>,
    taskId: Option<Id>,
    action: string,
    description: string,
    timestamp: int)

  /**
    Why a mutation fails: an error the handler throws with its message, or the
    store refusing to patch a document that does not exist.
   */
  datatype Failure = Thrown(message: string) | MissingDocument(id: Id)

  /** Milliseconds in seven days: `7 * 24 * 60 * 60 * 1000`. */
  const WeekMillis: int := 7 * 24 * 60 * 60 * 1000

  // Keys and predicates handed to the sequence operations.

  function ProjectOrder(p: Project): int { p.order }

  function TaskOrder(t: Task): int { t.order }

  function SubtaskOrder(s: Subtask): int { s.order }

  function ProjectHasId(id: Id): Project -> bool { (p: Project) => p.id == id }

  function TaskHasId(id: Id): Task -> bool { (t: Task) => t.id == id }

  function SubtaskHasId(id: Id): Subtask -> bool { (s: Subtask) => s.id == id }

  function LogHasId(id: Id): LogEntry -> bool { (e: LogEntry) => e.id == id }

  function ProjectHasSlug(slug: string): Project -> bool { (p: Project) => p.slug == slug }

  /** The `by_project` index: the tasks of one project. */
  function InProject(projectId: Id): Task -> bool { (t: Task) => t.projectId == projectId }

  /** The `by_task` index: the subtasks of one task. */
  function OfTask(taskId: Id): Subtask -> bool { (s: Subtask) => s.taskId == taskId }

  /** The `by_list_priority` index: the tasks on one focus list. */
  function OnList(p: ListPriority): Task -> bool { (t: Task) => t.listPriority == Some(p) }

  predicate IsTaskDone(t: Task) { t.status == Done }

  predicate IsSubtaskDone(s: Subtask) { s.done }
}
