/**
  Tasks: the three list queries, the next-task query, and the mutations that
  create tasks, move them between focus lists, change their status and archive
  old completions. The TODAY list holds at most three tasks; every mutation
  here keeps that bound.
 */
module Tasks {
  import opened Wrappers
  import opened Schema
  import opened Seqs
  import opened Store
  import opened Text
  import Projects

  // ----- Joined views -----

  /** A task spread together with its subtasks, as `listByProject` returns it. */
  datatype TaskWithSubtasks = TaskWithSubtasks(task: Task, subtasks: seq<Subtask>, totalSubtasks: nat, doneSubtasks: nat)

  /** A task with its project's name and slug and its subtasks, as `listByPriority` returns it. */
  datatype TaskWithDetails = TaskWithDetails(
    task: Task,
    projectName: string,
    projectSlug: string,
    subtasks: seq<Subtask>,
    totalSubtasks: nat,
    doneSubtasks: nat)

  /** A task with its project's name and slug, as `listDoneThisWeek` returns it. */
  datatype TaskWithProject = TaskWithProject(task: Task, projectName: string, projectSlug: string)

  /** The subtasks of `t` (the `by_task` lookup) sorted by `order`, with their counts. */
  function WithSubtasks(t: Task, subtasks: seq<Subtask>): (r: TaskWithSubtasks)
    ensures r.task == t
    ensures multiset(r.subtasks) == multiset(Filter(subtasks, OfTask(t.id)))
    ensures SortedBy(r.subtasks, SubtaskOrder)
    ensures forall i :: 0 <= i < |r.subtasks| ==> r.subtasks[i] in subtasks && r.subtasks[i].taskId == t.id
    ensures r.totalSubtasks == |r.subtasks| && r.doneSubtasks <= r.totalSubtasks
    ensures r.doneSubtasks == |Filter(Filter(subtasks, OfTask(t.id)), IsSubtaskDone)|
  {
    var own := Filter(subtasks, OfTask(t.id));
    var sorted := SortBy(own, SubtaskOrder);
    SortByMembers(own, SubtaskOrder);
    FilterMembers(subtasks, OfTask(t.id));
    TaskWithSubtasks(t, sorted, |own|, |Filter(own, IsSubtaskDone)|)
  }

  /** `ctx.db.get(projectId)`: the project with that id, if any. */
  function ProjectOf(projects: seq<Project>, id: Id): (r: Option<Project>)
    ensures r.Some? ==> r.value in projects && r.value.id == id
    ensures r.None? <==> forall j :: 0 <= j < |projects| ==> projects[j].id != id
  {
    Find(projects, ProjectHasId(id))
  }

  /** `project?.name || "Unknown"`. */
  function ProjectNameOf(projects: seq<Project>, id: Id): (r: string)
    ensures r != ""
    ensures r != "Unknown" ==> exists p :: p in projects && p.id == id && p.name == r
    ensures ProjectOf(projects, id).Some? && ProjectOf(projects, id).value.name != "" ==>
      r == ProjectOf(projects, id).value.name
  {
    match ProjectOf(projects, id)
    case Some(p) => if p.name != "" then p.name else "Unknown"
    case None => "Unknown"
  }

  /** `project?.slug || ""`. */
  function ProjectSlugOf(projects: seq<Project>, id: Id): (r: string)
    ensures r != "" ==> exists p :: p in projects && p.id == id && p.slug == r
    ensures ProjectOf(projects, id).None? ==> r == ""
    ensures ProjectOf(projects, id).Some? ==> r == ProjectOf(projects, id).value.slug
  {
    match ProjectOf(projects, id)
    case Some(p) => p.slug
    case None => ""
  }

  function WithDetails(t: Task, projects: seq<Project>, subtasks: seq<Subtask>): (r: TaskWithDetails)
    ensures r.task == t && r.projectName != ""
    ensures r.projectName == ProjectNameOf(projects, t.projectId) && r.projectSlug == ProjectSlugOf(projects, t.projectId)
    ensures var v := WithSubtasks(t, subtasks);
      r.subtasks == v.subtasks && r.totalSubtasks == v.totalSubtasks && r.doneSubtasks == v.doneSubtasks
  {
    var v := WithSubtasks(t, subtasks);
    TaskWithDetails(t, ProjectNameOf(projects, t.projectId), ProjectSlugOf(projects, t.projectId),
      v.subtasks, v.totalSubtasks, v.doneSubtasks)
  }

  function WithProject(t: Task, projects: seq<Project>): (r: TaskWithProject)
    ensures r.task == t && r.projectName != ""
    ensures r.projectName == ProjectNameOf(projects, t.projectId) && r.projectSlug == ProjectSlugOf(projects, t.projectId)
  {
    TaskWithProject(t, ProjectNameOf(projects, t.projectId), ProjectSlugOf(projects, t.projectId))
  }

  function SubtasksFor(subtasks: seq<Subtask>): Task -> TaskWithSubtasks {
    (t: Task) => WithSubtasks(t, subtasks)
  }

  function DetailsFor(projects: seq<Project>, subtasks: seq<Subtask>): Task -> TaskWithDetails {
    (t: Task) => WithDetails(t, projects, subtasks)
  }

  function ProjectFor(projects: seq<Project>): Task -> TaskWithProject {
    (t: Task) => WithProject(t, projects)
  }

  function SubtasksOrder(v: TaskWithSubtasks): int { v.task.order }
  function SubtasksTask(v: TaskWithSubtasks): Task { v.task }
  function DetailsOrder(v: TaskWithDetails): int { v.task.order }
  function DetailsTask(v: TaskWithDetails): Task { v.task }
  function ProjectTask(v: TaskWithProject): Task { v.task }

  // ----- List queries -----

  /** `tasks.listByProject`: the project's tasks with their subtasks, sorted by `order`. */
  function ListByProject(tasks: seq<Task>, subtasks: seq<Subtask>, projectId: Id): (r: seq<TaskWithSubtasks>)
    ensures |r| == |Filter(tasks, InProject(projectId))|
    ensures SortedBy(r, SubtasksOrder)
  {
    SortBy(Map(Filter(tasks, InProject(projectId)), SubtasksFor(subtasks)), SubtasksOrder)
  }

  /**
    `listByProject` returns the project's tasks, each exactly once and no
    other, in the stable order of `order`, each with its own subtasks.
   */
  lemma ListByProjectSpec(tasks: seq<Task>, subtasks: seq<Subtask>, projectId: Id)
    ensures Map(ListByProject(tasks, subtasks, projectId), SubtasksTask) == SortBy(Filter(tasks, InProject(projectId)), TaskOrder)
    ensures forall t :: t in Map(ListByProject(tasks, subtasks, projectId), SubtasksTask) <==> t in tasks && t.projectId == projectId
    ensures forall i :: 0 <= i < |ListByProject(tasks, subtasks, projectId)| ==>
      ListByProject(tasks, subtasks, projectId)[i] == WithSubtasks(ListByProject(tasks, subtasks, projectId)[i].task, subtasks)
  {
    var own := Filter(tasks, InProject(projectId));
    SortByMap(own, SubtasksFor(subtasks), SubtasksOrder, TaskOrder);
    var sorted := SortBy(own, TaskOrder);
    MapInverse(sorted, SubtasksFor(subtasks), SubtasksTask);
    SortByMembers(own, TaskOrder);
    FilterMembers(tasks, InProject(projectId));
  }

  /** `tasks.listByPriority`: the tasks on one focus list with their details, sorted by `order`. */
  function ListByPriority(tasks: seq<Task>, projects: seq<Project>, subtasks: seq<Subtask>, list: ListPriority): (r: seq<TaskWithDetails>)
    ensures |r| == |Filter(tasks, OnList(list))|
    ensures SortedBy(r, DetailsOrder)
  {
    SortBy(Map(Filter(tasks, OnList(list)), DetailsFor(projects, subtasks)), DetailsOrder)
  }

  lemma ListByPrioritySpec(tasks: seq<Task>, projects: seq<Project>, subtasks: seq<Subtask>, list: ListPriority)
    ensures Map(ListByPriority(tasks, projects, subtasks, list), DetailsTask) == SortBy(Filter(tasks, OnList(list)), TaskOrder)
    ensures forall t :: t in Map(ListByPriority(tasks, projects, subtasks, list), DetailsTask) <==> t in tasks && t.listPriority == Some(list)
    ensures forall i :: 0 <= i < |ListByPriority(tasks, projects, subtasks, list)| ==>
      ListByPriority(tasks, projects, subtasks, list)[i] == WithDetails(ListByPriority(tasks, projects, subtasks, list)[i].task, projects, subtasks)
  {
    var onList := Filter(tasks, OnList(list));
    SortByMap(onList, DetailsFor(projects, subtasks), DetailsOrder, TaskOrder);
    var sorted := SortBy(onList, TaskOrder);
    MapInverse(sorted, DetailsFor(projects, subtasks), DetailsTask);
    SortByMembers(onList, TaskOrder);
    FilterMembers(tasks, OnList(list));
  }

  /** `completedAt || 0`. */
  function CompletedOrZero(t: Task): int {
    match t.completedAt
    case Some(c) => c
    case None => 0
  }

  /**
    Done, with a truthy completion time later than one week before `now`;
    a task that `updateStatus` has just completed at a truthy `now` is one.
   */
  function RecentlyDone(now: int): (r: Task -> bool)
    ensures forall t, reason :: now != 0 ==> r(StatusPatched(t, Done, reason, now))
  {
    (t: Task) => t.status == Done && t.completedAt.Some? && t.completedAt.value != 0 && t.completedAt.value > now - WeekMillis
  }

  /** The sort key of `listDoneThisWeek`: newest completion first. */
  function NewestCompletion(t: Task): int { -CompletedOrZero(t) }

  function ProjectNewestCompletion(v: TaskWithProject): int { -CompletedOrZero(v.task) }

  /** `tasks.listDoneThisWeek`: tasks completed in the last week, newest first. */
  function ListDoneThisWeek(tasks: seq<Task>, projects: seq<Project>, now: int): (r: seq<TaskWithProject>)
    ensures |r| == |Filter(tasks, RecentlyDone(now))|
    ensures forall i, j :: 0 <= i < j < |r| ==> CompletedOrZero(r[i].task) >= CompletedOrZero(r[j].task)
  {
    var result := SortBy(Map(Filter(tasks, RecentlyDone(now)), ProjectFor(projects)), ProjectNewestCompletion);
    assert forall i, j :: 0 <= i < j < |result| ==> ProjectNewestCompletion(result[i]) <= ProjectNewestCompletion(result[j]);
    result
  }

  lemma ListDoneThisWeekSpec(tasks: seq<Task>, projects: seq<Project>, now: int)
    ensures Map(ListDoneThisWeek(tasks, projects, now), ProjectTask) == SortBy(Filter(tasks, RecentlyDone(now)), NewestCompletion)
    ensures forall t :: t in Map(ListDoneThisWeek(tasks, projects, now), ProjectTask) <==>
      t in tasks && t.status == Done && t.completedAt.Some? && t.completedAt.value != 0 && t.completedAt.value > now - WeekMillis
    ensures forall i :: 0 <= i < |ListDoneThisWeek(tasks, projects, now)| ==>
      ListDoneThisWeek(tasks, projects, now)[i] == WithProject(ListDoneThisWeek(tasks, projects, now)[i].task, projects)
  {
    var done := Filter(tasks, RecentlyDone(now));
    SortByMap(done, ProjectFor(projects), ProjectNewestCompletion, NewestCompletion);
    var sorted := SortBy(done, NewestCompletion);
    MapInverse(sorted, ProjectFor(projects), ProjectTask);
    SortByMembers(done, NewestCompletion);
    FilterMembers(tasks, RecentlyDone(now));
  }

  // ----- The TODAY list -----

  /** The number of tasks on the TODAY list. */
  function TodayCount(tasks: seq<Task>): nat { |Filter(tasks, OnList(Today))| }

  /** The most tasks the TODAY list may hold. */
  const TodayCapacity: nat := 3

  /** The TODAY list is within its capacity. */
  predicate TodayWithinCapacity(tasks: seq<Task>) { TodayCount(tasks) <= TodayCapacity }

  /** On the TODAY list and not the task `id`: the `otherTodayTasks` of `setListPriority`. */
  function OtherToday(id: Id): Task -> bool {
    (t: Task) => t.listPriority == Some(Today) && t.id != id
  }

  /** With unique ids, the other tasks on TODAY are the TODAY tasks less the task itself. */
  lemma OtherTodayCount(tasks: seq<Task>, i: nat)
    requires i < |tasks|
    requires forall j :: 0 <= j < |tasks| && j != i ==> tasks[j].id != tasks[i].id
    ensures |Filter(tasks, OtherToday(tasks[i].id))| == TodayCount(tasks) - (if tasks[i].listPriority == Some(Today) then 1 else 0)
  {
    FilterWithoutOne(tasks, i, OnList(Today), OtherToday(tasks[i].id));
  }

  /** Replacing one task changes the TODAY count by what left and what came in. */
  lemma TodayCountUpdate(tasks: seq<Task>, i: nat, t: Task)
    requires i < |tasks|
    ensures TodayCount(tasks[i := t]) ==
      TodayCount(tasks) - (if tasks[i].listPriority == Some(Today) then 1 else 0) + (if t.listPriority == Some(Today) then 1 else 0)
  {
    FilterUpdate(tasks, i, t, OnList(Today));
  }

  lemma TodayCountAppend(tasks: seq<Task>, t: Task)
    ensures TodayCount(tasks + [t]) == TodayCount(tasks) + (if t.listPriority == Some(Today) then 1 else 0)
  {
    FilterSnoc(tasks, t, OnList(Today));
  }

  // ----- The next task -----

  /** A task that can be worked on next: still to do, or already in progress. */
  predicate IsOpen(t: Task) { t.status == Todo || t.status == InProgress }

  /** The first open task of `p` once its tasks are sorted by `order`: an open task of its own. */
  function NextTaskFor(p: Project, tasks: seq<Task>): (r: Option<Task>)
    ensures r.Some? ==> r.value in tasks && r.value.projectId == p.id && IsOpen(r.value)
  {
    FilterMembers(tasks, InProject(p.id));
    SortByMembers(Filter(tasks, InProject(p.id)), TaskOrder);
    Find(SortBy(Filter(tasks, InProject(p.id)), TaskOrder), IsOpen)
  }

  /**
    The next task of a project is one of its open tasks with the least
    `order`; there is none exactly when the project has no open task.
   */
  lemma NextTaskForSpec(p: Project, tasks: seq<Task>)
    ensures var r := NextTaskFor(p, tasks);
      r.Some? ==> r.value in tasks && r.value.projectId == p.id && IsOpen(r.value)
    ensures var r := NextTaskFor(p, tasks);
      r.Some? ==> forall t :: t in tasks && t.projectId == p.id && IsOpen(t) ==> r.value.order <= t.order
    ensures NextTaskFor(p, tasks).None? <==> forall t :: t in tasks && t.projectId == p.id ==> !IsOpen(t)
  {
    var own := Filter(tasks, InProject(p.id));
    var sorted := SortBy(own, TaskOrder);
    FilterMembers(tasks, InProject(p.id));
    SortByMembers(own, TaskOrder);
    FindSortedLeast(sorted, TaskOrder, IsOpen);
  }

  /** `getNextTask`'s loop passes over a project that is blocked or has no open task. */
  predicate Skipped(p: Project, tasks: seq<Task>) {
    p.status == ProjectStatus.Blocked || NextTaskFor(p, tasks).None?
  }

  /** The answer of `getNextTask`: a project and its next task. */
  datatype NextTask = NextTask(project: Project, task: Task)

  /**
    The first candidate project that is not skipped, with its next task: an
    answer is a candidate that is not blocked, paired with its next task.
   */
  function FirstNextTask(candidates: seq<Project>, tasks: seq<Task>): (r: Option<NextTask>)
    ensures r.Some? ==> r.value.project in candidates && !Skipped(r.value.project, tasks)
    ensures r.Some? ==> NextTaskFor(r.value.project, tasks) == Some(r.value.task)
  {
    if candidates == [] then None
    else if Skipped(candidates[0], tasks) then FirstNextTask(candidates[1..], tasks)
    else Some(NextTask(candidates[0], NextTaskFor(candidates[0], tasks).value))
  }

  /** `n` is the answer found at candidate `k`: every candidate before `k` was skipped. */
  ghost predicate AnsweredAt(candidates: seq<Project>, tasks: seq<Task>, k: int, n: NextTask) {
    && 0 <= k < |candidates| && candidates[k] == n.project
    && !Skipped(candidates[k], tasks) && NextTaskFor(candidates[k], tasks) == Some(n.task)
    && forall j :: 0 <= j < k ==> Skipped(candidates[j], tasks)
  }

  function Answers(tasks: seq<Task>): Project -> bool {
    (p: Project) => !Skipped(p, tasks)
  }

  /** The loop stops at the first candidate that is not skipped. */
  lemma {:induction false} FirstNextTaskIndex(candidates: seq<Project>, tasks: seq<Task>)
    ensures FirstNextTask(candidates, tasks) ==
      match IndexWhere(candidates, Answers(tasks))
      case None => None
      case Some(k) => Some(NextTask(candidates[k], NextTaskFor(candidates[k], tasks).value))
  {
    if candidates != [] && Skipped(candidates[0], tasks) {
      FirstNextTaskIndex(candidates[1..], tasks);
      match IndexWhere(candidates[1..], Answers(tasks))
      case None =>
      case Some(k) => assert candidates[1..][k] == candidates[k + 1];
    }
  }

  /**
    The loop answers with the first candidate that is neither blocked nor
    out of open tasks, and answers nothing only when every candidate is.
   */
  lemma FirstNextTaskSpec(candidates: seq<Project>, tasks: seq<Task>)
    ensures FirstNextTask(candidates, tasks).Some? ==> exists k :: AnsweredAt(candidates, tasks, k, FirstNextTask(candidates, tasks).value)
    ensures FirstNextTask(candidates, tasks).None? <==> forall j :: 0 <= j < |candidates| ==> Skipped(candidates[j], tasks)
  {
    FirstNextTaskIndex(candidates, tasks);
    var p := Answers(tasks);
    match IndexWhere(candidates, p)
    case None =>
      assert forall j :: 0 <= j < |candidates| ==> !p(candidates[j]);
    case Some(k) =>
      assert forall j :: 0 <= j < k ==> !p(candidates[j]);
      assert AnsweredAt(candidates, tasks, k, FirstNextTask(candidates, tasks).value);
      assert !Skipped(candidates[k], tasks);
  }

  /** The `priorityOrder` table: high before medium before low. */
  function PriorityRank(p: Project): int {
    match p.priority
    case High => 0
    case Medium => 1
    case Low => 2
  }

  function HasPriority(priority: Priority): Project -> bool {
    (p: Project) => p.priority == priority
  }

  /** All projects, stably sorted by priority rank. */
  function ByPriority(projects: seq<Project>): (r: seq<Project>)
    ensures multiset(r) == multiset(projects)
    ensures SortedBy(r, PriorityRank)
  {
    SortBy(projects, PriorityRank)
  }

  /**
    The priority order is the high projects, then the medium ones, then the
    low ones, each group in creation order: the sort is stable.
   */
  lemma ByPriorityGroups(projects: seq<Project>)
    ensures ByPriority(projects) ==
      Filter(projects, HasPriority(High)) + Filter(projects, HasPriority(Medium)) + Filter(projects, HasPriority(Low))
  {
    var r := ByPriority(projects);
    SortedThreeClasses(r, PriorityRank, HasPriority(High), HasPriority(Medium), HasPriority(Low));
    SortByStable(projects, PriorityRank, HasPriority(High), 0);
    SortByStable(projects, PriorityRank, HasPriority(Medium), 1);
    SortByStable(projects, PriorityRank, HasPriority(Low), 2);
  }

  /**
    The projects `getNextTask` walks: with a truthy slug, the project with
    that slug or none; otherwise all of them, ordered by priority.
   */
  function Candidates(projects: seq<Project>, projectSlug: Option<string>): (r: seq<Project>)
    ensures projectSlug.Some? && projectSlug.value != "" ==>
      |r| <= 1 && (forall q :: q in r ==> q.slug == projectSlug.value) &&
      (r == [] <==> forall j :: 0 <= j < |projects| ==> projects[j].slug != projectSlug.value)
    ensures !(projectSlug.Some? && projectSlug.value != "") ==>
      multiset(r) == multiset(projects) && SortedBy(r, PriorityRank)
  {
    if projectSlug.Some? && projectSlug.value != "" then
      match Projects.GetBySlug(projects, projectSlug.value)
      case Some(p) => [p]
      case None => []
    else ByPriority(projects)
  }

  /** What `tasks.getNextTask` answers: an open task of a project that is not blocked, with that project. */
  function NextTaskQuery(projects: seq<Project>, tasks: seq<Task>, projectSlug: Option<string>): (r: Option<NextTask>)
    ensures r.Some? ==> r.value.project.status != ProjectStatus.Blocked && IsOpen(r.value.task)
    ensures r.Some? ==> r.value.task in tasks && r.value.task.projectId == r.value.project.id
  {
    FirstNextTask(Candidates(projects, projectSlug), tasks)
  }

  /** `tasks.getNextTask`: the loop over the candidate projects. */
  method GetNextTask(projects: seq<Project>, tasks: seq<Task>, projectSlug: Option<string>) returns (r: Option<NextTask>)
    ensures r == NextTaskQuery(projects, tasks, projectSlug)
  {
    var candidates := Candidates(projects, projectSlug);
    var i := 0;
    while i < |candidates|
      invariant 0 <= i <= |candidates|
      invariant FirstNextTask(candidates[i..], tasks) == FirstNextTask(candidates, tasks)
    {
      var project := candidates[i];
      assert candidates[i..][1..] == candidates[i + 1..];
      if project.status == ProjectStatus.Blocked {
        i := i + 1;
        continue;
      }
      var next := NextTaskFor(project, tasks);
      if next.Some? {
        return Some(NextTask(project, next.value));
      }
      i := i + 1;
    }
    return None;
  }

  lemma CandidatesFromProjects(projects: seq<Project>, projectSlug: Option<string>)
    ensures forall p :: p in Candidates(projects, projectSlug) ==> p in projects
  {
    if !(projectSlug.Some? && projectSlug.value != "") {
      forall p | p in ByPriority(projects) ensures p in projects {
        assert p in multiset(ByPriority(projects));
      }
    }
  }

  /**
    The answer is an open task of a project that is not blocked, with no
    open task of that project earlier in `order`.
   */
  lemma NextTaskSound(projects: seq<Project>, tasks: seq<Task>, projectSlug: Option<string>)
    ensures var r := NextTaskQuery(projects, tasks, projectSlug);
      r.Some? ==>
        && r.value.project in projects && r.value.project.status != ProjectStatus.Blocked
        && r.value.task in tasks && r.value.task.projectId == r.value.project.id && IsOpen(r.value.task)
        && forall t :: t in tasks && t.projectId == r.value.project.id && IsOpen(t) ==> r.value.task.order <= t.order
  {
    var c := Candidates(projects, projectSlug);
    CandidatesFromProjects(projects, projectSlug);
    FirstNextTaskSpec(c, tasks);
    var r := NextTaskQuery(projects, tasks, projectSlug);
    if r.Some? {
      var k :| AnsweredAt(c, tasks, k, r.value);
      assert c[k] in c;
      NextTaskForSpec(c[k], tasks);
    }
  }

  /** With a slug, only the project with that slug is considered. */
  lemma NextTaskWithSlug(projects: seq<Project>, tasks: seq<Task>, slug: string)
    requires slug != ""
    ensures Projects.GetBySlug(projects, slug).None? ==> NextTaskQuery(projects, tasks, Some(slug)).None?
    ensures Projects.GetBySlug(projects, slug).Some? ==>
      var p := Projects.GetBySlug(projects, slug).value;
      NextTaskQuery(projects, tasks, Some(slug)) == if Skipped(p, tasks) then None else Some(NextTask(p, NextTaskFor(p, tasks).value))
  {
    match Projects.GetBySlug(projects, slug)
    case None =>
      assert Candidates(projects, Some(slug)) == [];
    case Some(p) =>
      var c := Candidates(projects, Some(slug));
      assert c == [p];
      assert c[1..] == [];
      assert FirstNextTask(c[1..], tasks) == None;
      assert NextTaskQuery(projects, tasks, Some(slug)) == FirstNextTask(c, tasks);
  }

  /**
    Without a slug, every project of a strictly higher priority than the
    answer is blocked or has no open task, and there is no answer exactly
    when every project is blocked or has none.
   */
  lemma NextTaskByPriority(projects: seq<Project>, tasks: seq<Task>, projectSlug: Option<string>)
    requires projectSlug.None? || projectSlug == Some("")
    ensures var r := NextTaskQuery(projects, tasks, projectSlug);
      r.Some? ==> forall q :: q in projects && PriorityRank(q) < PriorityRank(r.value.project) ==> Skipped(q, tasks)
    ensures NextTaskQuery(projects, tasks, projectSlug).None? <==> forall q :: q in projects ==> Skipped(q, tasks)
  {
    var c := ByPriority(projects);
    assert Candidates(projects, projectSlug) == c;
    SortByMembers(projects, PriorityRank);
    FirstNextTaskSpec(c, tasks);
    var r := FirstNextTask(c, tasks);
    if r.Some? {
      var k :| AnsweredAt(c, tasks, k, r.value);
      HigherPrioritySkipped(c, tasks, k, r.value);
    }
    AllSkipped(c, projects, tasks);
  }

  lemma HigherPrioritySkipped(c: seq<Project>, tasks: seq<Task>, k: int, n: NextTask)
    requires SortedBy(c, PriorityRank) && AnsweredAt(c, tasks, k, n)
    ensures forall q :: q in c && PriorityRank(q) < PriorityRank(n.project) ==> Skipped(q, tasks)
  {
    forall q | q in c && PriorityRank(q) < PriorityRank(n.project) ensures Skipped(q, tasks) {
      var j :| 0 <= j < |c| && c[j] == q;
    }
  }

  lemma AllSkipped(c: seq<Project>, projects: seq<Project>, tasks: seq<Task>)
    requires forall q :: q in c <==> q in projects
    ensures (forall j :: 0 <= j < |c| ==> Skipped(c[j], tasks)) <==> (forall q :: q in projects ==> Skipped(q, tasks))
  {
  }

  // ----- Status changes -----

  /**
    The patch `updateStatus` applies: the new status and blocked reason, and
    on completion the completion time and leaving every focus list.
   */
  function StatusPatched(t: Task, status: TaskStatus, blockedReason: Option<string>, now: int): (r: Task)
    ensures r.status == status && r.blockedReason == blockedReason
    ensures status == Done ==> r.completedAt == Some(now) && r.listPriority == None
    ensures status != Done ==> r.completedAt == t.completedAt && r.listPriority == t.listPriority
    ensures r.(status := t.status, blockedReason := t.blockedReason, completedAt := t.completedAt, listPriority := t.listPriority) == t
  {
    var patched := t.(status := status, blockedReason := blockedReason);
    if status == Done then patched.(completedAt := Some(now), listPriority := None) else patched
  }

  /** The `statusLabels` table. */
  function StatusLabel(status: TaskStatus): string {
    match status
    case Todo => "To Do"
    case InProgress => "In Progress"
    case Done => "Done"
    case Blocked => "Blocked"
  }

  function StatusAction(status: TaskStatus): (r: string)
    ensures r == "completed" || r == "started" || r == "blocked" || r == "updated"
  {
    match status
    case Done => "completed"
    case InProgress => "started"
    case Blocked => "blocked"
    case Todo => "updated"
  }

  /** Each target status is logged under its own action. */
  lemma StatusActionInjective(a: TaskStatus, b: TaskStatus)
    requires StatusAction(a) == StatusAction(b)
    ensures a == b
  {
  }

  /** `${reason ? `: ${reason}` : ""}`: the suffix appears only for a non-empty reason. */
  function ReasonSuffix(blockedReason: Option<string>): (r: string)
    ensures r == "" <==> blockedReason.None? || blockedReason.value == ""
    ensures r != "" ==> |r| >= 2 && r[..2] == ": " && r[2..] == blockedReason.value
  {
    match blockedReason
    case Some(reason) => if reason != "" then ": " + reason else ""
    case None => ""
  }

  /**
    The description `updateStatus` logs: it quotes the task's title, and a
    blocked task's description ends with the reason suffix.
   */
  function StatusDescription(title: string, status: TaskStatus, blockedReason: Option<string>): (r: string)
    ensures Quotes(r, title)
    ensures status == TaskStatus.Blocked ==> EndsWith(r, ReasonSuffix(blockedReason))
  {
    match status
    case Done => Framed("✅ Completed ", title, "")
    case InProgress => Framed("▶️ Started ", title, "")
    case Blocked => Framed("🔴 Blocked ", title, ReasonSuffix(blockedReason))
    case Todo => Framed("", title, " → " + StatusLabel(status))
  }

  /** Changing a status never adds a task to the TODAY list. */
  lemma StatusPatchKeepsCapacity(tasks: seq<Task>, i: nat, status: TaskStatus, blockedReason: Option<string>, now: int)
    requires i < |tasks|
    ensures TodayCount(tasks[i := StatusPatched(tasks[i], status, blockedReason, now)]) <= TodayCount(tasks)
    ensures status == Done && tasks[i].listPriority == Some(Today) ==>
      TodayCount(tasks[i := StatusPatched(tasks[i], status, blockedReason, now)]) == TodayCount(tasks) - 1
  {
    TodayCountUpdate(tasks, i, StatusPatched(tasks[i], status, blockedReason, now));
  }

  /**
    `tasks.updateStatus`: nothing happens for a missing task; otherwise the
    task is patched and one log entry records the change.
   */
  method UpdateStatus(db: Store, id: Id, status: TaskStatus, blockedReason: Option<string>, now: int)
    requires db.Valid()
    modifies db
    ensures db.Valid()
    ensures IndexWhere(old(db.tasks), TaskHasId(id)).None? ==>
      db.tasks == old(db.tasks) && db.logs == old(db.logs) && db.nextId == old(db.nextId)
    ensures IndexWhere(old(db.tasks), TaskHasId(id)).Some? ==>
      var k := IndexWhere(old(db.tasks), TaskHasId(id)).value;
      var t := old(db.tasks)[k];
      && db.tasks == old(db.tasks)[k := StatusPatched(t, status, blockedReason, now)]
      && db.logs == old(db.logs) + [LogEntry(old(db.nextId), Some(t.projectId), Some(id),
           StatusAction(status), StatusDescription(t.title, status, blockedReason), now)]
      && db.nextId == old(db.nextId) + 1
    ensures TodayCount(db.tasks) <= old(TodayCount(db.tasks))
    ensures db.projects == old(db.projects) && db.subtasks == old(db.subtasks)
  {
    match IndexWhere(db.tasks, TaskHasId(id))
    case None =>
    case Some(k) =>
      var t := db.tasks[k];
      StatusPatchKeepsCapacity(db.tasks, k, status, blockedReason, now);
      db.ReplaceTask(k, StatusPatched(t, status, blockedReason, now));
      var _ := db.InsertLog(LogEntry(0, Some(t.projectId), Some(id),
        StatusAction(status), StatusDescription(t.title, status, blockedReason), now));
  }

  // ----- Focus lists -----

  /** The `priorityLabels` table. */
  function ListLabel(list: ListPriority): string {
    match list
    case Today => "TODAY 🔥"
    case ThisWeek => "THIS WEEK"
  }

  /** The description `setListPriority` logs: the quoted title, then the label of the list it moved to. */
  function PrioritizedDescription(title: string, list: Option<ListPriority>): (r: string)
    ensures Quotes(r, title)
    ensures list.Some? ==> EndsWith(r, " → " + ListLabel(list.value))
    ensures list.None? ==> EndsWith(r, " → Backlog")
  {
    match list
    case Some(l) => Framed("📌 ", title, " → " + ListLabel(l))
    case None => Framed("📤 ", title, " → Backlog")
  }

  const TodayFullOnMove: string := "TODAY list is full (max 3). Complete or move a task first."

  /**
    Whether moving the task at index `k` to `list` keeps the TODAY list within
    capacity: moving to TODAY needs fewer than three other tasks there.
   */
  lemma MoveKeepsCapacity(tasks: seq<Task>, k: nat, list: Option<ListPriority>)
    requires k < |tasks|
    requires forall j :: 0 <= j < |tasks| && j != k ==> tasks[j].id != tasks[k].id
    requires list == Some(Today) ==> |Filter(tasks, OtherToday(tasks[k].id))| < TodayCapacity
    requires TodayWithinCapacity(tasks)
    ensures TodayWithinCapacity(tasks[k := tasks[k].(listPriority := list)])
  {
    TodayCountUpdate(tasks, k, tasks[k].(listPriority := list));
    OtherTodayCount(tasks, k);
  }

  /**
    `tasks.setListPriority`: moves a task to a focus list or back to the
    backlog. Moving to TODAY throws when three other tasks are already there.
   */
  method SetListPriority(db: Store, id: Id, list: Option<ListPriority>, now: int) returns (r: Result<(), Failure>)
    requires db.Valid()
    modifies db
    ensures db.Valid()
    ensures r.Err? <==> IndexWhere(old(db.tasks), TaskHasId(id)).Some? && list == Some(Today)
                        && |Filter(old(db.tasks), OtherToday(id))| >= TodayCapacity
    ensures r.Err? ==> r.error == Thrown(TodayFullOnMove)
    ensures r.Err? || IndexWhere(old(db.tasks), TaskHasId(id)).None? ==>
      db.tasks == old(db.tasks) && db.logs == old(db.logs) && db.nextId == old(db.nextId)
    ensures r.Ok? && IndexWhere(old(db.tasks), TaskHasId(id)).Some? ==>
      var k := IndexWhere(old(db.tasks), TaskHasId(id)).value;
      var t := old(db.tasks)[k];
      && db.tasks == old(db.tasks)[k := t.(listPriority := list)]
      && db.logs == old(db.logs) + [LogEntry(old(db.nextId), Some(t.projectId), Some(id), "prioritized",
           PrioritizedDescription(t.title, list), now)]
      && db.nextId == old(db.nextId) + 1
    ensures old(TodayWithinCapacity(db.tasks)) ==> TodayWithinCapacity(db.tasks)
    ensures db.projects == old(db.projects) && db.subtasks == old(db.subtasks)
  {
    match IndexWhere(db.tasks, TaskHasId(id))
    case None =>
      r := Ok(());
    case Some(k) =>
      if list == Some(Today) && |Filter(db.tasks, OtherToday(id))| >= TodayCapacity {
        return Err(Thrown(TodayFullOnMove));
      }
      var t := db.tasks[k];
      if TodayWithinCapacity(db.tasks) {
        assert forall j :: 0 <= j < |db.tasks| && j != k ==> db.tasks[j].id != t.id;
        MoveKeepsCapacity(db.tasks, k, list);
      }
      db.ReplaceTask(k, t.(listPriority := list));
      var _ := db.InsertLog(LogEntry(0, Some(t.projectId), Some(id), "prioritized",
        PrioritizedDescription(t.title, list), now));
      r := Ok(());
  }

  // ----- Creating tasks -----

  const TodayFullOnCreate: string := "TODAY list is full (max 3)."

  /** The `order` a new task of the project gets: the number of tasks it already has. */
  function NextOrder(tasks: seq<Task>, projectId: Id): nat {
    |Filter(tasks, InProject(projectId))|
  }

  /** Each task added to a project moves the next order of that project up by one. */
  lemma NextOrderAppend(tasks: seq<Task>, t: Task)
    ensures NextOrder(tasks + [t], t.projectId) == NextOrder(tasks, t.projectId) + 1
  {
    FilterSnoc(tasks, t, InProject(t.projectId));
  }

  /**
    `tasks.create`: a new to-do task at the end of its project, optionally on
    a focus list, and a log entry naming the project. Adding to a full TODAY
    list throws.
   */
  method Create(db: Store, projectId: Id, title: string, description: Option<string>, aiPrompt: Option<string>,
                list: Option<ListPriority>, now: int) returns (r: Result<Id, Failure>)
    requires db.Valid()
    modifies db
    ensures db.Valid()
    ensures r.Err? <==> list == Some(Today) && old(TodayCount(db.tasks)) >= TodayCapacity
    ensures r.Err? ==> r.error == Thrown(TodayFullOnCreate)
    ensures r.Err? ==> db.tasks == old(db.tasks) && db.logs == old(db.logs) && db.nextId == old(db.nextId)
    ensures r.Ok? ==>
      && r.value == old(db.nextId) && db.nextId == r.value + 2
      && db.tasks == old(db.tasks) + [Task(r.value, projectId, title, description, Todo, list, aiPrompt, None,
           NextOrder(old(db.tasks), projectId), None)]
      && db.logs == old(db.logs) + [LogEntry(r.value + 1, Some(projectId), Some(r.value), "created",
           "➕ Added \"" + title + "\" to " + ProjectNameOf(old(db.projects), projectId), now)]
    ensures old(TodayWithinCapacity(db.tasks)) ==> TodayWithinCapacity(db.tasks)
    ensures db.projects == old(db.projects) && db.subtasks == old(db.subtasks)
  {
    if list == Some(Today) && TodayCount(db.tasks) >= TodayCapacity {
      return Err(Thrown(TodayFullOnCreate));
    }
    var order := NextOrder(db.tasks, projectId);
    var t := Task(0, projectId, title, description, Todo, list, aiPrompt, None, order, None);
    TodayCountAppend(db.tasks, t.(id := db.nextId));
    var taskId := db.InsertTask(t);
    var projectName := ProjectNameOf(db.projects, projectId);
    var _ := db.InsertLog(LogEntry(0, Some(projectId), Some(taskId), "created",
      "➕ Added \"" + title + "\" to " + projectName, now));
    r := Ok(taskId);
  }

  /**
    `tasks.quickAdd`: a new backlog to-do task at the end of the project with
    the given slug; an unknown slug throws.
   */
  method QuickAdd(db: Store, projectSlug: string, title: string, now: int) returns (r: Result<Id, Failure>)
    requires db.Valid()
    modifies db
    ensures db.Valid()
    ensures r.Err? <==> Projects.GetBySlug(old(db.projects), projectSlug).None?
    ensures r.Err? ==> r.error == Thrown("Project \"" + projectSlug + "\" not found")
    ensures r.Err? ==> db.tasks == old(db.tasks) && db.logs == old(db.logs) && db.nextId == old(db.nextId)
    ensures r.Ok? ==>
      var p := Projects.GetBySlug(old(db.projects), projectSlug).value;
      && r.value == old(db.nextId) && db.nextId == r.value + 2
      && db.tasks == old(db.tasks) + [Task(r.value, p.id, title, None, Todo, None, None, None,
           NextOrder(old(db.tasks), p.id), None)]
      && db.logs == old(db.logs) + [LogEntry(r.value + 1, Some(p.id), Some(r.value), "created",
           "➕ Added \"" + title + "\" to " + p.name, now)]
    ensures TodayCount(db.tasks) == old(TodayCount(db.tasks))
    ensures db.projects == old(db.projects) && db.subtasks == old(db.subtasks)
  {
    match Projects.GetBySlug(db.projects, projectSlug)
    case None =>
      r := Err(Thrown("Project \"" + projectSlug + "\" not found"));
    case Some(p) =>
      var t := Task(0, p.id, title, None, Todo, None, None, None, NextOrder(db.tasks, p.id), None);
      TodayCountAppend(db.tasks, t.(id := db.nextId));
      var taskId := db.InsertTask(t);
      var _ := db.InsertLog(LogEntry(0, Some(p.id), Some(taskId), "created",
        "➕ Added \"" + title + "\" to " + p.name, now));
      r := Ok(taskId);
  }

  // ----- Archiving -----

  /** Done, with a truthy completion time earlier than one week before `now`: never done this week as well. */
  function StaleDone(now: int): (r: Task -> bool)
    ensures forall t :: r(t) ==> t.status == Done && !RecentlyDone(now)(t)
  {
    (t: Task) => t.status == Done && t.completedAt.Some? && t.completedAt.value != 0 && t.completedAt.value < now - WeekMillis
  }

  /**
    The patch `archiveDone` applies to one task: a stale completion time is
    removed, so the patched task is never stale.
   */
  function Archive(now: int): (r: Task -> Task)
    ensures forall t :: !StaleDone(now)(r(t))
  {
    (t: Task) => if StaleDone(now)(t) then t.(completedAt := None) else t
  }

  /**
    Archiving touches only stale completions: it keeps every task's id, status
    and list, keeps each task done within the week as it is, leaves no stale
    task behind, and doing it twice is doing it once.
   */
  lemma ArchiveSpec(now: int, t: Task)
    ensures Archive(now)(t).(completedAt := t.completedAt) == t
    ensures StaleDone(now)(t) ==> Archive(now)(t).completedAt == None
    ensures !StaleDone(now)(t) ==> Archive(now)(t) == t
    ensures RecentlyDone(now)(t) ==> Archive(now)(t) == t
    ensures !StaleDone(now)(Archive(now)(t))
    ensures Archive(now)(Archive(now)(t)) == Archive(now)(t)
    ensures RecentlyDone(now)(Archive(now)(t)) == RecentlyDone(now)(t)
  {
  }

  /** After archiving, the list of tasks done this week is the same as before. */
  lemma {:induction false} ArchiveKeepsDoneThisWeek(tasks: seq<Task>, now: int)
    ensures Filter(Map(tasks, Archive(now)), RecentlyDone(now)) == Filter(tasks, RecentlyDone(now))
  {
    if tasks != [] {
      ArchiveKeepsDoneThisWeek(tasks[1..], now);
      assert Map(tasks, Archive(now))[1..] == Map(tasks[1..], Archive(now));
      ArchiveSpec(now, tasks[0]);
    }
  }

  lemma ArchiveKeepsToday(tasks: seq<Task>, now: int)
    ensures TodayCount(Map(tasks, Archive(now))) == TodayCount(tasks)
  {
    FilterMapCount(tasks, Archive(now), OnList(Today));
  }

  /** One `ctx.db.patch` of `archiveDone`: the task at `i` loses a stale completion time, and says whether it had one. */
  method ArchiveAt(db: Store, i: nat, now: int) returns (stale: bool)
    requires i < |db.tasks|
    modifies db
    ensures stale == StaleDone(now)(old(db.tasks)[i])
    ensures db.tasks == old(db.tasks)[i := Archive(now)(old(db.tasks)[i])]
    ensures db.projects == old(db.projects) && db.subtasks == old(db.subtasks)
    ensures db.logs == old(db.logs) && db.nextId == old(db.nextId)
  {
    var t := db.tasks[i];
    stale := StaleDone(now)(t);
    if stale {
      db.ReplaceTask(i, t.(completedAt := None));
    } else {
      assert db.tasks[i := Archive(now)(t)] == db.tasks;
    }
  }

  /** The pass of `archiveDone` over the tasks, one patch per stale task. */
  method ArchiveEach(db: Store, now: int) returns (archived: nat)
    modifies db
    ensures db.tasks == Map(old(db.tasks), Archive(now))
    ensures archived == |Filter(old(db.tasks), StaleDone(now))|
    ensures db.projects == old(db.projects) && db.subtasks == old(db.subtasks)
    ensures db.logs == old(db.logs) && db.nextId == old(db.nextId)
  {
    ghost var before := db.tasks;
    archived := 0;
    var i := 0;
    while i < |db.tasks|
      invariant 0 <= i <= |db.tasks| == |before|
      invariant forall j :: 0 <= j < i ==> db.tasks[j] == Archive(now)(before[j])
      invariant forall j :: i <= j < |before| ==> db.tasks[j] == before[j]
      invariant archived == |Filter(before[..i], StaleDone(now))|
      invariant db.projects == old(db.projects) && db.subtasks == old(db.subtasks)
      invariant db.logs == old(db.logs) && db.nextId == old(db.nextId)
    {
      FilterPrefixStep(before, i, StaleDone(now));
      var stale := ArchiveAt(db, i, now);
      if stale {
        archived := archived + 1;
      }
      i := i + 1;
    }
    assert before[..i] == before;
    assert forall j :: 0 <= j < |before| ==> db.tasks[j] == Map(before, Archive(now))[j];
  }

  /**
    `tasks.archiveDone`: removes the completion time of every task completed
    more than a week ago and reports how many it archived.
   */
  method ArchiveDone(db: Store, now: int) returns (archived: nat)
    requires db.Valid()
    modifies db
    ensures db.Valid()
    ensures db.tasks == Map(old(db.tasks), Archive(now))
    ensures archived == |Filter(old(db.tasks), StaleDone(now))|
    ensures TodayCount(db.tasks) == old(TodayCount(db.tasks))
    ensures db.projects == old(db.projects) && db.subtasks == old(db.subtasks)
    ensures db.logs == old(db.logs) && db.nextId == old(db.nextId)
  {
    ghost var before := db.tasks;
    ArchiveKeepsToday(before, now);
    archived := ArchiveEach(db, now);
    MapKeepsUnique(before, Archive(now), TaskIdOf, db.nextId);
  }
}
