/**
  The daily dashboard's own arithmetic over the queries it subscribes to:
  the TODAY and THIS WEEK columns hide finished tasks, the TODAY column is
  padded with empty slots up to its capacity, and the backlog picker offers
  the open tasks of a project that sit on no focus list.
 */
module DailyView {
  import opened Wrappers
  import opened Schema
  import opened Seqs
  import opened Tasks

  predicate TaskNotDone(t: Task) { t.status != Done }

  predicate DetailsNotDone(v: TaskWithDetails) { TaskNotDone(v.task) }

  /** `tasks.filter(t => t.status !== "done")`: the cards a focus column shows. */
  function ActiveDetails(list: seq<TaskWithDetails>): (r: seq<TaskWithDetails>)
    ensures |r| <= |list|
    ensures forall v :: v in r <==> v in list && v.task.status != Done
  {
    FilterMembers(list, DetailsNotDone);
    Filter(list, DetailsNotDone)
  }

  /**
    The TODAY column: the unfinished tasks of the `today` list, in `order`;
    no more cards than tasks on the list, so at most three while the list
    keeps to its capacity.
   */
  function TodayColumn(tasks: seq<Task>, projects: seq<Project>, subtasks: seq<Subtask>): (r: seq<TaskWithDetails>)
    ensures forall v :: v in r ==> v.task.status != Done
    ensures |r| <= TodayCount(tasks)
    ensures TodayWithinCapacity(tasks) ==> |r| <= TodayCapacity
  {
    ActiveDetails(ListByPriority(tasks, projects, subtasks, Today))
  }

  /** `todayCount`: the number of cards in the TODAY column. */
  function TodayShown(tasks: seq<Task>, projects: seq<Project>, subtasks: seq<Subtask>): (r: nat)
    ensures r == |Filter(Filter(tasks, OnList(Today)), TaskNotDone)|
    ensures r <= TodayCount(tasks)
  {
    var onList := Filter(tasks, OnList(Today));
    var list := ListByPriority(tasks, projects, subtasks, Today);
    ListByPrioritySpec(tasks, projects, subtasks, Today);
    FilterMapCountAcross(list, DetailsTask, DetailsNotDone, TaskNotDone);
    FilterSortByCount(onList, TaskOrder, TaskNotDone);
    |TodayColumn(tasks, projects, subtasks)|
  }

  /** The empty slots under the TODAY cards: `3 - todayCount` of them while the column is short. */
  function EmptySlots(todayCount: nat): (r: nat)
    ensures r > 0 <==> todayCount < TodayCapacity
    ensures todayCount <= TodayCapacity ==> todayCount + r == TodayCapacity
  {
    if todayCount < 3 then 3 - todayCount else 0
  }

  /**
    While the TODAY list keeps to its capacity, the column always shows three
    places: its cards and the empty slots after them, and a slot appears
    exactly when fewer than three unfinished tasks are on the list.
   */
  lemma TodayColumnFilled(tasks: seq<Task>, projects: seq<Project>, subtasks: seq<Subtask>)
    requires TodayWithinCapacity(tasks)
    ensures TodayShown(tasks, projects, subtasks) + EmptySlots(TodayShown(tasks, projects, subtasks)) == TodayCapacity
    ensures EmptySlots(TodayShown(tasks, projects, subtasks)) > 0 <==> TodayShown(tasks, projects, subtasks) < TodayCapacity
  {
  }

  /** A column card is an unfinished task of that focus list, and every such task has its card. */
  lemma ColumnMembers(tasks: seq<Task>, projects: seq<Project>, subtasks: seq<Subtask>, list: ListPriority)
    ensures forall t :: t in Map(ActiveDetails(ListByPriority(tasks, projects, subtasks, list)), DetailsTask) <==>
      t in tasks && t.listPriority == Some(list) && t.status != Done
  {
    ListByPrioritySpec(tasks, projects, subtasks, list);
    MapFilterMembers(ListByPriority(tasks, projects, subtasks, list), DetailsTask, DetailsNotDone, TaskNotDone);
  }

  predicate TaskAvailable(t: Task) { t.status != Done && t.listPriority.None? }

  predicate Available(v: TaskWithSubtasks) { TaskAvailable(v.task) }

  /**
    The backlog picker: the unfinished tasks of the selected project that are
    on no focus list, in `order`; with no project selected there is no list.
   */
  function BacklogPicker(tasks: seq<Task>, subtasks: seq<Subtask>, selected: Option<Id>): (r: seq<TaskWithSubtasks>)
    ensures selected.None? ==> r == []
    ensures forall v :: v in r ==> v.task.status != Done && v.task.listPriority.None?
    ensures selected.Some? ==> |r| <= |Filter(tasks, InProject(selected.value))|
  {
    match selected
    case None => []
    case Some(projectId) =>
      FilterMembers(ListByProject(tasks, subtasks, projectId), Available);
      Filter(ListByProject(tasks, subtasks, projectId), Available)
  }

  /** The picker offers exactly the unfinished, unlisted tasks of the selected project. */
  lemma BacklogPickerMembers(tasks: seq<Task>, subtasks: seq<Subtask>, projectId: Id)
    ensures forall t :: t in Map(BacklogPicker(tasks, subtasks, Some(projectId)), SubtasksTask) <==>
      t in tasks && t.projectId == projectId && t.status != Done && t.listPriority == None
  {
    ListByProjectSpec(tasks, subtasks, projectId);
    MapFilterMembers(ListByProject(tasks, subtasks, projectId), SubtasksTask, Available, TaskAvailable);
  }

  /**
    Picking a task for TODAY from the picker adds exactly one task to the
    TODAY list, since a picker task sits on no list.
   */
  lemma PickAddsOne(tasks: seq<Task>, k: nat)
    requires k < |tasks| && tasks[k].listPriority == None
    ensures TodayCount(tasks[k := tasks[k].(listPriority := Some(Today))]) == TodayCount(tasks) + 1
  {
    TodayCountUpdate(tasks, k, tasks[k].(listPriority := Some(Today)));
  }
}
