/**
  The kanban board: which project it shows, how that project's tasks are
  split into the four status columns, and what dropping a card onto a
  column does.
 */
module KanbanView {
  import opened Wrappers
  import opened Schema
  import opened Seqs
  import opened Store
  import opened Tasks
  import opened Projects

  /**
    `activeProject`: the selected project when one is selected (none if it is
    gone), otherwise the first active project, otherwise the first project.
   */
  function ActiveProject(projects: seq<ProjectStats>, selected: Option<Id>): (r: Option<ProjectStats>)
    ensures r.Some? ==> r.value in projects
    ensures selected.Some? ==> (r.Some? ==> r.value.project.id == selected.value)
    ensures selected.Some? ==> (r.None? <==> forall j :: 0 <= j < |projects| ==> projects[j].project.id != selected.value)
    ensures selected.None? ==> (r.None? <==> projects == [])
    ensures selected.None? && r.Some? && r.value.project.status != Active ==>
      r.value == projects[0] && forall j :: 0 <= j < |projects| ==> projects[j].project.status != Active
    ensures selected.None? && r.Some? && r.value.project.status == Active ==>
      exists k :: 0 <= k < |projects| && projects[k] == r.value && forall j :: 0 <= j < k ==> projects[j].project.status != Active
  {
    match selected
    case Some(id) => Find(projects, StatsHasId(id))
    case None =>
      match Find(projects, StatsActive)
      case Some(p) => Some(p)
      case None => if projects == [] then None else Some(projects[0])
  }

  function StatsHasId(id: Id): ProjectStats -> bool {
    (s: ProjectStats) => s.project.id == id
  }

  function HasStatus(status: TaskStatus): TaskWithSubtasks -> bool {
    (v: TaskWithSubtasks) => v.task.status == status
  }

  /** One column of `tasksByStatus`: the tasks with that status, in the order of the list. */
  function Column(tasks: seq<TaskWithSubtasks>, status: TaskStatus): (r: seq<TaskWithSubtasks>)
    ensures forall v :: v in r <==> v in tasks && v.task.status == status
  {
    FilterMembers(tasks, HasStatus(status));
    Filter(tasks, HasStatus(status))
  }

  /** `tasksByStatus`, one field per column in the board's left-to-right order. */
  datatype Board = Board(
    todo: seq<TaskWithSubtasks>,
    inProgress: seq<TaskWithSubtasks>,
    done: seq<TaskWithSubtasks>,
    blocked: seq<TaskWithSubtasks>)

  /** `tasksByStatus`: every card lands in one column, so the columns hold as many cards as the list. */
  function TasksByStatus(tasks: seq<TaskWithSubtasks>): (r: Board)
    ensures |r.todo| + |r.inProgress| + |r.done| + |r.blocked| == |tasks|
  {
    FourWaySplit(tasks, HasStatus(Todo), HasStatus(InProgress), HasStatus(Done), HasStatus(TaskStatus.Blocked));
    var b := Board(Column(tasks, Todo), Column(tasks, InProgress), Column(tasks, Done), Column(tasks, TaskStatus.Blocked));
    assert b.todo == Filter(tasks, HasStatus(Todo)) && b.inProgress == Filter(tasks, HasStatus(InProgress));
    assert b.done == Filter(tasks, HasStatus(Done)) && b.blocked == Filter(tasks, HasStatus(TaskStatus.Blocked));
    assert |multiset(b.todo) + multiset(b.inProgress) + multiset(b.done) + multiset(b.blocked)| == |multiset(tasks)|;
    b
  }

  /** The column of the board that shows `status`. */
  function ColumnOf(b: Board, status: TaskStatus): seq<TaskWithSubtasks> {
    match status
    case Todo => b.todo
    case InProgress => b.inProgress
    case Done => b.done
    case Blocked => b.blocked
  }

  function AllColumns(b: Board): multiset<TaskWithSubtasks> {
    multiset(b.todo) + multiset(b.inProgress) + multiset(b.done) + multiset(b.blocked)
  }

  predicate ExactlyOne(a: bool, b: bool, c: bool, d: bool) {
    (if a then 1 else 0) + (if b then 1 else 0) + (if c then 1 else 0) + (if d then 1 else 0) == 1
  }

  /** Four tests of which each element passes exactly one split a sequence into four parts. */
  lemma {:induction false} FourWaySplit<T>(s: seq<T>, p0: T -> bool, p1: T -> bool, p2: T -> bool, p3: T -> bool)
    requires forall x :: ExactlyOne(p0(x), p1(x), p2(x), p3(x))
    ensures multiset(Filter(s, p0)) + multiset(Filter(s, p1)) + multiset(Filter(s, p2)) + multiset(Filter(s, p3)) == multiset(s)
  {
    if s != [] {
      var x, rest := s[0], s[1..];
      assert multiset(s) == multiset{x} + multiset(rest) by {
        assert s == [x] + rest;
      }
      var h0, h1, h2, h3 := if p0(x) then [x] else [], if p1(x) then [x] else [], if p2(x) then [x] else [], if p3(x) then [x] else [];
      var f0, f1, f2, f3 := Filter(rest, p0), Filter(rest, p1), Filter(rest, p2), Filter(rest, p3);
      assert Filter(s, p0) == h0 + f0 && Filter(s, p1) == h1 + f1 && Filter(s, p2) == h2 + f2 && Filter(s, p3) == h3 + f3;
      FourWaySplit(rest, p0, p1, p2, p3);
      OneOfFour(x, p0(x), p1(x), p2(x), p3(x));
      SumOfFour(h0, f0, h1, f1, h2, f2, h3, f3);
    }
  }

  lemma SumOfFour<T>(h0: seq<T>, f0: seq<T>, h1: seq<T>, f1: seq<T>, h2: seq<T>, f2: seq<T>, h3: seq<T>, f3: seq<T>)
    ensures multiset(h0 + f0) + multiset(h1 + f1) + multiset(h2 + f2) + multiset(h3 + f3) ==
      (multiset(h0) + multiset(h1) + multiset(h2) + multiset(h3)) + (multiset(f0) + multiset(f1) + multiset(f2) + multiset(f3))
  {
  }

  /** An element that passes exactly one of four tests lands in exactly one of four parts. */
  lemma OneOfFour<T>(x: T, a: bool, b: bool, c: bool, d: bool)
    requires ExactlyOne(a, b, c, d)
    ensures multiset(if a then [x] else []) + multiset(if b then [x] else []) +
      multiset(if c then [x] else []) + multiset(if d then [x] else []) == multiset{x}
  {
  }

  /** Together the four columns hold every task of the list exactly as often as the list does. */
  lemma BoardPartition(tasks: seq<TaskWithSubtasks>)
    ensures AllColumns(TasksByStatus(tasks)) == multiset(tasks)
  {
    FourWaySplit(tasks, HasStatus(Todo), HasStatus(InProgress), HasStatus(Done), HasStatus(TaskStatus.Blocked));
  }

  /** A card sits in the column of its own status and in no other. */
  lemma BoardColumns(tasks: seq<TaskWithSubtasks>, status: TaskStatus)
    ensures forall v :: v in ColumnOf(TasksByStatus(tasks), status) <==> v in tasks && v.task.status == status
  {
  }

  /**
    Moving one card to the column of `status` takes it out of its old column
    and puts it into the new one; when it already had that status nothing
    moves.
   */
  lemma DropMovesCard(tasks: seq<TaskWithSubtasks>, k: nat, status: TaskStatus, s: TaskStatus)
    requires k < |tasks|
    ensures var moved := tasks[k := tasks[k].(task := tasks[k].task.(status := status))];
      |Column(moved, s)| == |Column(tasks, s)|
        - (if tasks[k].task.status == s then 1 else 0)
        + (if status == s then 1 else 0)
  {
    FilterUpdate(tasks, k, tasks[k].(task := tasks[k].task.(status := status)), HasStatus(s));
  }

  /**
    `handleDrop`: the dragged card's `taskId`, where `None` is the empty
    string of a drag that carried none, is moved to the column's status with
    `tasks.updateStatus`; without an id nothing happens.
   */
  method HandleDrop(db: Store, taskId: Option<Id>, newStatus: TaskStatus, now: int)
    requires db.Valid()
    modifies db
    ensures db.Valid()
    ensures taskId.None? ==>
      db.tasks == old(db.tasks) && db.logs == old(db.logs) && db.nextId == old(db.nextId)
    ensures taskId.Some? && IndexWhere(old(db.tasks), TaskHasId(taskId.value)).None? ==>
      db.tasks == old(db.tasks) && db.logs == old(db.logs) && db.nextId == old(db.nextId)
    ensures taskId.Some? && IndexWhere(old(db.tasks), TaskHasId(taskId.value)).Some? ==>
      var k := IndexWhere(old(db.tasks), TaskHasId(taskId.value)).value;
      var t := old(db.tasks)[k];
      && db.tasks == old(db.tasks)[k := StatusPatched(t, newStatus, None, now)]
      && db.logs == old(db.logs) + [LogEntry(old(db.nextId), Some(t.projectId), Some(t.id),
           StatusAction(newStatus), StatusDescription(t.title, newStatus, None), now)]
      && db.nextId == old(db.nextId) + 1
    ensures TodayCount(db.tasks) <= old(TodayCount(db.tasks))
    ensures db.projects == old(db.projects) && db.subtasks == old(db.subtasks)
  {
    match taskId
    case None =>
    case Some(id) =>
      Tasks.UpdateStatus(db, id, newStatus, None, now);
  }
}
