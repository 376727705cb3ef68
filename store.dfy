/**
  The document store the backend runs against: the four collections, in
  insertion order, and the source of fresh document ids. Only the primitive
  operations the backend uses are modelled (insert, point patch, delete);
  index lookups are filters over these sequences.
 */
module Store {
  import opened Wrappers
  import opened Schema
  import opened Seqs

  function ProjectIdOf(p: Project): Id { p.id }
  function TaskIdOf(t: Task): Id { t.id }
  function SubtaskIdOf(s: Subtask): Id { s.id }
  function LogIdOf(e: LogEntry): Id { e.id }

  /** Every id in `s` is below `bound`, and no two documents share an id. */
  ghost predicate IdsUnique<T>(s: seq<T>, id: T -> Id, bound: nat) {
    && (forall i :: 0 <= i < |s| ==> id(s[i]) < bound)
    && (forall i, j :: 0 <= i < j < |s| ==> id(s[i]) != id(s[j]))
  }

  /** Removing one document keeps the ids unique and below the bound. */
  lemma RemoveKeepsUnique<T>(s: seq<T>, k: nat, id: T -> Id, bound: nat)
    requires IdsUnique(s, id, bound) && k < |s|
    ensures IdsUnique(s[..k] + s[k + 1..], id, bound)
  {
    var r := s[..k] + s[k + 1..];
    assert forall i :: 0 <= i < |r| ==> r[i] == if i < k then s[i] else s[i + 1];
  }

  /** A map that keeps every id keeps the ids unique and below the bound. */
  lemma MapKeepsUnique<T>(s: seq<T>, f: T -> T, id: T -> Id, bound: nat)
    requires IdsUnique(s, id, bound)
    requires forall x :: id(f(x)) == id(x)
    ensures IdsUnique(Map(s, f), id, bound)
  {
  }

  class Store {
    var projects: seq<Project>
    var tasks: seq<Task>
    var subtasks: seq<Subtask>
    var logs: seq<LogEntry>
    /** The id the next insert hands out; ids are never reused. */
    var nextId: nat

    ghost predicate Valid()
      reads this
    {
      && IdsUnique(projects, ProjectIdOf, nextId)
      && IdsUnique(tasks, TaskIdOf, nextId)
      && IdsUnique(subtasks, SubtaskIdOf, nextId)
      && IdsUnique(logs, LogIdOf, nextId)
    }

    constructor ()
      ensures Valid()
      ensures projects == [] && tasks == [] && subtasks == [] && logs == []
    {
      projects, tasks, subtasks, logs := [], [], [], [];
      nextId := 0;
    }

    /** `ctx.db.insert("projects", p)`: the document gets a fresh id, which is returned. */
    method InsertProject(p: Project) returns (id: Id)
      requires Valid()
      modifies this
      ensures Valid()
      ensures id == old(nextId) && nextId == id + 1
      ensures projects == old(projects) + [p.(id := id)]
      ensures tasks == old(tasks) && subtasks == old(subtasks) && logs == old(logs)
    {
      id := nextId;
      projects := projects + [p.(id := id)];
      nextId := nextId + 1;
    }

    method InsertTask(t: Task) returns (id: Id)
      requires Valid()
      modifies this
      ensures Valid()
      ensures id == old(nextId) && nextId == id + 1
      ensures tasks == old(tasks) + [t.(id := id)]
      ensures projects == old(projects) && subtasks == old(subtasks) && logs == old(logs)
    {
      id := nextId;
      tasks := tasks + [t.(id := id)];
      nextId := nextId + 1;
    }

    method InsertSubtask(s: Subtask) returns (id: Id)
      requires Valid()
      modifies this
      ensures Valid()
      ensures id == old(nextId) && nextId == id + 1
      ensures subtasks == old(subtasks) + [s.(id := id)]
      ensures projects == old(projects) && tasks == old(tasks) && logs == old(logs)
    {
      id := nextId;
      subtasks := subtasks + [s.(id := id)];
      nextId := nextId + 1;
    }

    method InsertLog(e: LogEntry) returns (id: Id)
      requires Valid()
      modifies this
      ensures Valid()
      ensures id == old(nextId) && nextId == id + 1
      ensures logs == old(logs) + [e.(id := id)]
      ensures projects == old(projects) && tasks == old(tasks) && subtasks == old(subtasks)
    {
      id := nextId;
      logs := logs + [e.(id := id)];
      nextId := nextId + 1;
    }

    /** `ctx.db.patch` of the project at index `i`: the new document keeps its id. */
    method ReplaceProject(i: nat, p: Project)
      requires Valid() && i < |projects| && p.id == projects[i].id
      modifies this
      ensures Valid() && nextId == old(nextId)
      ensures projects == old(projects)[i := p]
      ensures tasks == old(tasks) && subtasks == old(subtasks) && logs == old(logs)
    {
      projects := projects[i := p];
    }

    /** A patch that keeps the id keeps a valid store valid. */
    method ReplaceTask(i: nat, t: Task)
      requires i < |tasks| && t.id == tasks[i].id
      modifies this
      ensures old(Valid()) ==> Valid()
      ensures nextId == old(nextId)
      ensures tasks == old(tasks)[i := t]
      ensures projects == old(projects) && subtasks == old(subtasks) && logs == old(logs)
    {
      tasks := tasks[i := t];
    }

    method ReplaceSubtask(i: nat, s: Subtask)
      requires Valid() && i < |subtasks| && s.id == subtasks[i].id
      modifies this
      ensures Valid() && nextId == old(nextId)
      ensures subtasks == old(subtasks)[i := s]
      ensures projects == old(projects) && tasks == old(tasks) && logs == old(logs)
    {
      subtasks := subtasks[i := s];
    }

    /** `ctx.db.delete` of a log entry: the entry with that id leaves the collection. */
    method DeleteLog(id: Id)
      requires Valid()
      modifies this
      ensures Valid() && nextId == old(nextId)
      ensures logs == match IndexWhere(old(logs), LogHasId(id))
                      case None => old(logs)
                      case Some(k) => old(logs)[..k] + old(logs)[k + 1..]
      ensures projects == old(projects) && tasks == old(tasks) && subtasks == old(subtasks)
    {
      match IndexWhere(logs, LogHasId(id))
      case None =>
      case Some(k) =>
        RemoveKeepsUnique(logs, k, LogIdOf, nextId);
        logs := logs[..k] + logs[k + 1..];
    }
  }
}
