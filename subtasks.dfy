/** Subtasks: ticking a subtask on and off, and adding one to a task. */
module Subtasks {
  import opened Wrappers
  import opened Schema
  import opened Seqs
  import opened Store
  import opened Text

  /** `ctx.db.get(taskId)`: the task with that id, if any. */
  function TaskOf(tasks: seq<Task>, id: Id): (r: Option<Task>)
    ensures r.Some? ==> r.value in tasks && r.value.id == id
    ensures r.None? <==> forall j :: 0 <= j < |tasks| ==> tasks[j].id != id
  {
    Find(tasks, TaskHasId(id))
  }

  /** The patch `toggle` applies: only `done` flips. */
  function Toggled(s: Subtask): (r: Subtask)
    ensures r.done == !s.done
    ensures r.(done := s.done) == s
  {
    s.(done := !s.done)
  }

  /** Toggling twice restores the subtask. */
  lemma ToggleTwice(s: Subtask)
    ensures Toggled(Toggled(s)) == s
  {
  }

  /** Toggling one subtask moves the number of done subtasks by exactly one. */
  lemma ToggleDoneCount(subtasks: seq<Subtask>, k: nat)
    requires k < |subtasks|
    ensures |Filter(subtasks[k := Toggled(subtasks[k])], IsSubtaskDone)| ==
      |Filter(subtasks, IsSubtaskDone)| + (if subtasks[k].done then -1 else 1)
  {
    FilterUpdate(subtasks, k, Toggled(subtasks[k]), IsSubtaskDone);
  }

  /** The log action of a toggle: `subtask_completed` exactly when the subtask is now done. */
  function ToggleAction(done: bool): (r: string)
    ensures r == "subtask_completed" <==> done
    ensures r == "subtask_unchecked" <==> !done
  {
    if done then "subtask_completed" else "subtask_unchecked"
  }

  /** The log description of a toggle: the quoted title, after a checked or an unchecked box. */
  function ToggleDescription(title: string, done: bool): (r: string)
    ensures Quotes(r, title)
    ensures r[0] == (if done then '☑' else '⬜')
  {
    if done then Framed("☑️ Checked ", title, "") else Framed("⬜ Unchecked ", title, "")
  }

  /**
    `subtasks.toggle`: flips `done` of an existing subtask and, when its task
    exists, logs the new state against that task and its project.
   */
  method Toggle(db: Store, id: Id, now: int)
    requires db.Valid()
    modifies db
    ensures db.Valid()
    ensures IndexWhere(old(db.subtasks), SubtaskHasId(id)).None? ==>
      db.subtasks == old(db.subtasks) && db.logs == old(db.logs) && db.nextId == old(db.nextId)
    ensures IndexWhere(old(db.subtasks), SubtaskHasId(id)).Some? ==>
      var k := IndexWhere(old(db.subtasks), SubtaskHasId(id)).value;
      var s := old(db.subtasks)[k];
      && db.subtasks == old(db.subtasks)[k := Toggled(s)]
      && match TaskOf(old(db.tasks), s.taskId)
         case None => db.logs == old(db.logs) && db.nextId == old(db.nextId)
         case Some(t) =>
           && db.logs == old(db.logs) + [LogEntry(old(db.nextId), Some(t.projectId), Some(s.taskId),
                ToggleAction(!s.done), ToggleDescription(s.title, !s.done), now)]
           && db.nextId == old(db.nextId) + 1
    ensures db.projects == old(db.projects) && db.tasks == old(db.tasks)
  {
    match IndexWhere(db.subtasks, SubtaskHasId(id))
    case None =>
    case Some(k) =>
      var s := db.subtasks[k];
      var newDone := !s.done;
      db.ReplaceSubtask(k, Toggled(s));
      match TaskOf(db.tasks, s.taskId)
      case None =>
      case Some(t) =>
        var _ := db.InsertLog(LogEntry(0, Some(t.projectId), Some(s.taskId),
          ToggleAction(newDone), ToggleDescription(s.title, newDone), now));
  }

  /** The `order` a new subtask of the task gets: the number of subtasks it already has. */
  function NextSubtaskOrder(subtasks: seq<Subtask>, taskId: Id): nat {
    |Filter(subtasks, OfTask(taskId))|
  }

  /** Each subtask added to a task moves the next order of that task up by one, and no other task's. */
  lemma NextSubtaskOrderAppend(subtasks: seq<Subtask>, s: Subtask, taskId: Id)
    ensures NextSubtaskOrder(subtasks + [s], taskId) ==
      NextSubtaskOrder(subtasks, taskId) + (if s.taskId == taskId then 1 else 0)
  {
    FilterSnoc(subtasks, s, OfTask(taskId));
  }

  /**
    `subtasks.create`: a new unticked subtask at the end of its task, logged
    when the task exists. The subtask is inserted even when it does not.
   */
  method Create(db: Store, taskId: Id, title: string, now: int) returns (id: Id)
    requires db.Valid()
    modifies db
    ensures db.Valid()
    ensures id == old(db.nextId)
    ensures db.subtasks == old(db.subtasks) + [Subtask(id, taskId, title, false, NextSubtaskOrder(old(db.subtasks), taskId))]
    ensures match TaskOf(old(db.tasks), taskId)
      case None => db.logs == old(db.logs) && db.nextId == id + 1
      case Some(t) =>
        && db.logs == old(db.logs) + [LogEntry(id + 1, Some(t.projectId), Some(taskId), "subtask_created",
             "➕ Added subtask \"" + title + "\"", now)]
        && db.nextId == id + 2
    ensures db.projects == old(db.projects) && db.tasks == old(db.tasks)
  {
    var order := NextSubtaskOrder(db.subtasks, taskId);
    id := db.InsertSubtask(Subtask(0, taskId, title, false, order));
    match TaskOf(db.tasks, taskId)
    case None =>
    case Some(t) =>
      var _ := db.InsertLog(LogEntry(0, Some(t.projectId), Some(taskId), "subtask_created",
        "➕ Added subtask \"" + title + "\"", now));
  }
}
