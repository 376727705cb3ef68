# Task tracker backend, modelled in Dafny

This project models the backend of a small personal task tracker. The
tracker keeps four tables in a Convex document store:

- projects, each with a status, a priority and a display order;
- tasks, each belonging to a project and optionally sitting on one of two
  focus lists ("today", "this week");
- subtasks, the checklist items of a task;
- an action log of what happened.

The queries and mutations of `apps/tasktracker/convex/*.ts` are modelled.
So are the small pure computations the dashboard, kanban and mobile views
do over the query results.

## How the model is laid out

- `wrappers.dfy` (`Wrappers`): `Option` and `Result`.
- `seqs.dfy` (`Seqs`): `Filter`, `Map`, `Find`, `IndexWhere`, `Take`,
  `Reverse`, and a stable insertion sort `SortBy`, with their lemmas. The
  stable sort matches `Array.prototype.sort`, which is stable.
- `schema.dfy` (`Schema`): one datatype per table of `schema.ts`. Ids are
  natural numbers.
- `store.dfy` (`Store`): the document store.
  - It is a class with one `seq` field per table, in creation order, plus
    the next fresh id.
  - `Valid()` says ids are fresh and distinct.
  - Its insert, replace and delete methods stand for `ctx.db.insert`,
    `ctx.db.patch` and `ctx.db.delete`.
  - Creation order is what `.first()` and the index scans without an order
    rely on.
- `projects.dfy`, `tasks.dfy`, `subtasks.dfy`, `action_logs.dfy`,
  `seed.dfy`: one module per Convex file.
  - Queries are functions over the tables.
  - Mutations are methods that take the store and a `now` timestamp.
- `text.dfy` (`Text`): decimal rendering of a number, as a template literal
  does it, and the quoting of a title inside a log description.
- `time_ago.dfy` (`TimeAgo`): `formatTimeAgo`. The copies in
  `daily-view.tsx` and `kanban-view.tsx` are identical, so they share one
  model.
- `daily_view.dfy`, `kanban_view.dfy`, `mobile_view.dfy`: the pure helpers
  of the three views.

## What the model follows

**JavaScript truthiness** is modelled where the code relies on it:

- `completedAt` 0 counts as "not completed";
- a `limit` of 0 means 20;
- an empty slug means no slug;
- an empty project name shows as "Unknown";
- an empty blocked reason adds no suffix.

**`Math.round(x)`** is `floor(x + 1/2)`, computed on exact rationals.

**Index scans.**
- An index scan with no explicit order returns documents in creation
  order.
- The `by_timestamp` index scanned `desc` breaks timestamp ties newest
  document first.

**Failure.**
- A `throw` becomes `Err(Thrown(message))`, carrying the source's own
  message.
- A `ctx.db.patch` on a missing id becomes `Err(MissingDocument(id))`, with
  the state unchanged.

**Documented behaviours** the model keeps:

- **Today capacity.** The "today" list holds at most 3 tasks. Both `create`
  and `setListPriority` enforce this. `SetListPriority` and `Create` are
  proved to keep `TodayWithinCapacity`. `UpdateStatus` and `ArchiveDone`
  never raise the count.
- **Completion.** Marking a task done takes it off its focus list and
  stamps it.
- **Archiving.** `archiveDone` clears the completion stamp of tasks done
  more than 7 days ago. It never changes what "done this week" shows.
- **Next task.** `getNextTask` skips blocked projects. It picks the
  lowest-`order` open task, meaning to-do or in progress, of the
  highest-priority project that has one.

## Model

| member | source | states |
|---|---|---|
| Projects.CompletionPercent | apps/tasktracker/convex/projects.ts:16-20 | the percentage `Math.round((doneTasks / totalTasks) * 100)`, taken on the exact ratio, lies within one half of 100·done/total, rounding halves up; 0 when the project has no tasks or none are done, at most 100, exactly 100 when every task is done |
| Projects.WithStats | apps/tasktracker/convex/projects.ts:11-22 | a project's total is the number of its tasks, its done count is the number of those that are done, and its percentage is the rounded share of the two, in range |
| Projects.List | apps/tasktracker/convex/projects.ts:5-28 | one entry per project, ordered by `order` |
| Projects.ListSpec | apps/tasktracker/convex/projects.ts:5-28 | the listed projects are the stable sort of the table by `order`, a permutation of it, each entry carrying its own statistics |
| Projects.GetBySlug | apps/tasktracker/convex/projects.ts:30-38 | returns the first project with that slug in creation order, and nothing exactly when no project has it |
| Projects.LowerChar | apps/tasktracker/convex/projects.ts:62 | a capital A-Z becomes the matching small letter a-z; every character without a special mapping is kept; the result is never empty, has no capital A-Z, and holds whitespace only when the input was whitespace |
| Projects.LowerCase | apps/tasktracker/convex/projects.ts:62 | `toLowerCase` lower-cases each character with `LowerChar`; no capital A-Z remains |
| Projects.LowerCaseAppend | apps/tasktracker/convex/projects.ts:62 | lower-casing a concatenation lower-cases each part, so `toLowerCase` acts one character at a time |
| Projects.LowerCaseNoSpaces | apps/tasktracker/convex/projects.ts:62 | lower-casing turns no character into whitespace: blank-free text stays blank-free and a non-blank first character stays non-blank |
| Projects.LowerCaseOfLower | apps/tasktracker/convex/projects.ts:62 | text without capitals or specially mapped characters is its own lower case |
| Projects.DropRun | apps/tasktracker/convex/projects.ts:62 | skipping the whitespace run before a non-blank rest leaves exactly that rest, so `\s+` takes the whole run |
| Projects.CollapseSpaces | apps/tasktracker/convex/projects.ts:62 | after replacing whitespace runs by `-` no whitespace is left |
| Projects.CollapseSpacesChars | apps/tasktracker/convex/projects.ts:62 | every character of the result other than `-` has any property all input characters share, so nothing but the hyphen is brought in |
| Projects.CollapseLeadingRun | apps/tasktracker/convex/projects.ts:62 | a run of whitespace at the start becomes a single leading `-` |
| Projects.CollapseWithoutSpaces | apps/tasktracker/convex/projects.ts:62 | text without whitespace is left unchanged |
| Projects.CollapseRun | apps/tasktracker/convex/projects.ts:62 | the blank-free text before a maximal whitespace run is kept and the whole run becomes a single `-` |
| Projects.Slugify | apps/tasktracker/convex/projects.ts:62 | a slug consists only of `[\w-]` characters and has no capital |
| Projects.SlugifyWord | apps/tasktracker/convex/projects.ts:62 | the slug of a blank-free name is its lower case with every character outside `[\w-]` removed |
| Projects.SlugifyJoin | apps/tasktracker/convex/projects.ts:62 | a whitespace run between a blank-free part and a rest becomes one `-` between the slugs of the two |
| Projects.SlugifyWords | apps/tasktracker/convex/projects.ts:62 | non-empty blank-free words separated by whitespace slug to the slugs of the words joined by `-` ("Take It Down!!" gives "take-it-down") |
| Projects.SlugifyCons | apps/tasktracker/convex/projects.ts:62 | in a blank-free name each character contributes its own lower case, less any characters outside `[\w-]`, ahead of the slug of the rest |
| Projects.SlugifyPlainWord | apps/tasktracker/convex/projects.ts:62 | a name made of `[\w-]` characters followed only by other non-blank punctuation slugs to the lower case of that leading part |
| Projects.SlugOfTake | apps/tasktracker/convex/projects.ts:62 | "Take" slugs to "take" |
| Projects.SlugOfIt | apps/tasktracker/convex/projects.ts:62 | "It" slugs to "it" |
| Projects.SlugOfDown | apps/tasktracker/convex/projects.ts:62 | "Down!!" slugs to "down": the trailing `!!` is removed |
| Projects.SlugOfTakeItDown | apps/tasktracker/convex/projects.ts:62 | "Take It Down!!" slugs to "take-it-down" |
| Projects.SlugifyIdempotent | apps/tasktracker/convex/projects.ts:62 | slugifying a slug gives it back |
| Projects.Create | apps/tasktracker/convex/projects.ts:55-83 | appends an active project with the slug of its name, `order` equal to the count of existing projects, and a `project_created` log entry; returns the new id |
| Projects.UpdateStatus | apps/tasktracker/convex/projects.ts:40-53 | fails on a missing project and changes nothing; otherwise replaces only that project's status and logs nothing |
| Projects.UpdateStatusKeepsIds | apps/tasktracker/convex/projects.ts:50-52 | a status patch keeps every project id in place |
| Tasks.WithSubtasks | apps/tasktracker/convex/tasks.ts:12-29 | a task's subtasks are exactly its own, sorted by `order`, with the total and done counts of that set |
| Tasks.ProjectOf | apps/tasktracker/convex/tasks.ts:46 | `ctx.db.get(task.projectId)` returns a stored project with that id, or nothing exactly when there is none; the same lookup serves tasks.ts:80 and 237 |
| Tasks.ProjectNameOf | apps/tasktracker/convex/tasks.ts:54 | the project name shown is never empty; it is the project's name when that is non-empty and "Unknown" otherwise |
| Tasks.ProjectSlugOf | apps/tasktracker/convex/tasks.ts:55 | the slug shown is exactly the slug of the project the lookup finds, and empty when the project is missing |
| Tasks.WithDetails | apps/tasktracker/convex/tasks.ts:44-60 | a focus-list card carries the task, its subtasks and counts, and its project's name and slug |
| Tasks.WithProject | apps/tasktracker/convex/tasks.ts:78-87 | a done-this-week entry carries the task and its project's name and slug |
| Tasks.RecentlyDone | apps/tasktracker/convex/tasks.ts:74-76 | the done-this-week test holds for every task just marked done at a nonzero `now` |
| Tasks.ListByProject | apps/tasktracker/convex/tasks.ts:4-33 | one entry per task of the project, sorted by `order` |
| Tasks.ListByProjectSpec | apps/tasktracker/convex/tasks.ts:4-33 | the listed tasks are exactly the project's tasks, stably sorted by `order`, each with its own subtasks |
| Tasks.ListByPriority | apps/tasktracker/convex/tasks.ts:36-65 | one entry per task on the list, sorted by `order` |
| Tasks.ListByPrioritySpec | apps/tasktracker/convex/tasks.ts:36-65 | the listed tasks are exactly those on that focus list, stably sorted by `order`, each with its details |
| Tasks.ListDoneThisWeek | apps/tasktracker/convex/tasks.ts:68-91 | one entry per task done within the last 7 days, most recently completed first |
| Tasks.ListDoneThisWeekSpec | apps/tasktracker/convex/tasks.ts:68-91 | the entries are exactly the done tasks completed within 7 days of `now`, stably sorted newest first |
| Tasks.OtherTodayCount | apps/tasktracker/convex/tasks.ts:164-175 | the count of other tasks on "today" is the today count less the moved task's own place on it |
| Tasks.TodayCountUpdate | apps/tasktracker/convex/tasks.ts:177 | replacing one task changes the today count by the difference of their memberships |
| Tasks.TodayCountAppend | apps/tasktracker/convex/tasks.ts:226-234 | appending a task raises the today count by one exactly when it goes on "today" |
| Tasks.NextTaskForSpec | apps/tasktracker/convex/tasks.ts:271-283 | a project's next task is one of its own open (to-do or in-progress) tasks with the least `order`; there is none exactly when it has no open task |
| Tasks.NextTaskFor | apps/tasktracker/convex/tasks.ts:271-283 | a project's next task is a stored task of that project that is to-do or in progress |
| Tasks.FirstNextTask | apps/tasktracker/convex/tasks.ts:271-286 | the answer pairs a candidate that is neither blocked nor out of open tasks with that project's next task |
| Tasks.Candidates | apps/tasktracker/convex/tasks.ts:259-268 | with a non-empty slug, at most the one project carrying that slug, and none exactly when no project has it; otherwise a permutation of all projects sorted by priority |
| Tasks.FirstNextTaskIndex | apps/tasktracker/convex/tasks.ts:271-286 | the loop's answer is the candidate at the first index that is neither blocked nor out of open tasks, paired with that project's next task |
| Tasks.FirstNextTaskSpec | apps/tasktracker/convex/tasks.ts:271-286 | the loop answers with the first candidate that is not blocked and has an open task, having skipped all earlier ones, and answers nothing exactly when every candidate is skipped |
| Tasks.ByPriority | apps/tasktracker/convex/tasks.ts:266-268 | the candidates are a permutation of the projects sorted high, medium, low |
| Tasks.ByPriorityGroups | apps/tasktracker/convex/tasks.ts:266-268 | the sort keeps creation order within each priority |
| Tasks.GetNextTask | apps/tasktracker/convex/tasks.ts:253-290 | the loop over candidate projects returns what the next-task query defines |
| Tasks.NextTaskQuery | apps/tasktracker/convex/tasks.ts:253-290 | an answer is an open stored task of the project it is paired with, and that project is not blocked |
| Tasks.NextTaskSound | apps/tasktracker/convex/tasks.ts:253-290 | a next task is an open task of a stored project, and that project is the one returned with it |
| Tasks.NextTaskWithSlug | apps/tasktracker/convex/tasks.ts:259-264 | with a slug, the answer comes from the project with that slug, and there is none when no project has it |
| Tasks.NextTaskByPriority | apps/tasktracker/convex/tasks.ts:265-286 | without a slug, every project of higher priority than the one returned is blocked or has no open task, and there is no answer exactly when every project is blocked or has none |
| Tasks.StatusPatched | apps/tasktracker/convex/tasks.ts:108-119 | the patch sets status and blocked reason; done also stamps `completedAt` and clears the focus list; nothing else changes |
| Tasks.StatusAction | apps/tasktracker/convex/tasks.ts:129-133 | the log action is one of the four fixed words |
| Tasks.StatusActionInjective | apps/tasktracker/convex/tasks.ts:129-133 | distinct statuses log distinct actions |
| Tasks.ReasonSuffix | apps/tasktracker/convex/tasks.ts:140 | the suffix is empty exactly when there is no reason or it is empty; otherwise it is `: ` followed by the reason |
| Tasks.StatusDescription | apps/tasktracker/convex/tasks.ts:129-141 | the description quotes the task's title, and a blocked one ends with the reason suffix |
| Tasks.StatusPatchKeepsCapacity | apps/tasktracker/convex/tasks.ts:113-117 | a status change never adds to the today count, and completing a today task removes one |
| Tasks.UpdateStatus | apps/tasktracker/convex/tasks.ts:93-151 | a missing task changes nothing; otherwise exactly that task is patched and one log entry carries its action and description |
| Tasks.MoveKeepsCapacity | apps/tasktracker/convex/tasks.ts:163-177 | a move that passes the capacity check keeps the today list within its capacity |
| Tasks.SetListPriority | apps/tasktracker/convex/tasks.ts:154-196 | throws the capacity message exactly when the task exists, the target is "today" and three other tasks are there; otherwise moves only that task and logs it; capacity is preserved |
| Tasks.PrioritizedDescription | apps/tasktracker/convex/tasks.ts:190-192 | the description quotes the task's title and ends with `→` and the focus list's label, or `→ Backlog` when the task leaves its list |
| Tasks.NextOrderAppend | apps/tasktracker/convex/tasks.ts:219-224 | a new task's `order` is the number of tasks its project already has, and each insertion raises that number by one |
| Tasks.Create | apps/tasktracker/convex/tasks.ts:198-251 | throws exactly when "today" is requested and already full; otherwise appends a to-do task at the end of its project and one log entry with action `created`; capacity is preserved |
| Tasks.QuickAdd | apps/tasktracker/convex/tasks.ts:292-327 | throws `Project "<slug>" not found` exactly when no project has the slug; otherwise appends a to-do task on no list and logs it |
| Tasks.ArchiveSpec | apps/tasktracker/convex/tasks.ts:336-342 | archiving clears only `completedAt`, only of tasks done more than 7 days ago, is idempotent and keeps the done-this-week test |
| Tasks.StaleDone | apps/tasktracker/convex/tasks.ts:336-338 | only a done task that fails the done-this-week test is stale |
| Tasks.Archive | apps/tasktracker/convex/tasks.ts:340-342 | an archived task is never stale |
| Tasks.ArchiveKeepsDoneThisWeek | apps/tasktracker/convex/tasks.ts:74-76 | the done-this-week selection is the same before and after archiving |
| Tasks.ArchiveKeepsToday | apps/tasktracker/convex/tasks.ts:340-342 | archiving leaves the today count alone |
| Tasks.ArchiveAt | apps/tasktracker/convex/tasks.ts:336-341 | one patch: the task at that index loses its completion time exactly when it is stale, and nothing else changes |
| Tasks.ArchiveEach | apps/tasktracker/convex/tasks.ts:335-344 | the pass leaves every task archived and counts the stale ones |
| Tasks.ArchiveDone | apps/tasktracker/convex/tasks.ts:330-346 | the loop archives every stale done task and returns how many there were; nothing else changes |
| Subtasks.TaskOf | apps/tasktracker/convex/subtasks.ts:14 | the parent lookup returns the stored task with that id, or nothing exactly when there is none |
| Subtasks.Toggled | apps/tasktracker/convex/subtasks.ts:10-11 | toggling flips `done` and nothing else |
| Subtasks.ToggleTwice | apps/tasktracker/convex/subtasks.ts:10-11 | toggling twice restores the subtask |
| Subtasks.ToggleDoneCount | apps/tasktracker/convex/subtasks.ts:10-11 | a toggle moves the done count by exactly one, up or down |
| Subtasks.ToggleAction | apps/tasktracker/convex/subtasks.ts:19 | the action is `subtask_completed` exactly when the new state is ticked and `subtask_unchecked` exactly when it is not |
| Subtasks.ToggleDescription | apps/tasktracker/convex/subtasks.ts:20-22 | the description quotes the subtask's title and starts with the ticked or empty box of its new state |
| Subtasks.Toggle | apps/tasktracker/convex/subtasks.ts:4-27 | a missing subtask changes nothing; otherwise only it flips, and a log entry follows exactly when its task exists |
| Subtasks.NextSubtaskOrderAppend | apps/tasktracker/convex/subtasks.ts:35-44 | a new subtask's `order` is the number of subtasks its task already has; inserting one raises that number by one for its own task only |
| Subtasks.Create | apps/tasktracker/convex/subtasks.ts:29-60 | appends an unticked subtask at the end of its task, and logs it exactly when the task exists |
| ActionLogs.EffectiveLimit | apps/tasktracker/convex/actionLogs.ts:11 | the limit is the given one when positive and 20 otherwise |
| ActionLogs.NewestFirst | apps/tasktracker/convex/actionLogs.ts:7-10 | the scan is a permutation of the log, newest timestamp first |
| ActionLogs.List | apps/tasktracker/convex/actionLogs.ts:4-15 | at most limit entries, newest first |
| ActionLogs.ListKeepsNewest | apps/tasktracker/convex/actionLogs.ts:7-11 | the entries returned come from the log, and none left out is newer than one returned |
| ActionLogs.NewestFirstTies | apps/tasktracker/convex/actionLogs.ts:9-10 | entries with equal timestamps come out newest document first |
| ActionLogs.Log | apps/tasktracker/convex/actionLogs.ts:17-30 | appends exactly one entry stamped `now`, returns its id and changes nothing else |
| ActionLogs.Clear | apps/tasktracker/convex/actionLogs.ts:32-40 | deletes every log entry and nothing else |
| Seed.SeedAll | apps/tasktracker/convex/seed.ts:3-333 | does nothing when a project exists; otherwise inserts exactly the seed table and writes no log, leaving six projects in the store, so a second run is a no-op |
| Seed.InsertProjectsInto | apps/tasktracker/convex/seed.ts:12-329 | inserting the project blocks one by one builds the tables the seed table describes |
| Seed.InsertTasksInto | apps/tasktracker/convex/seed.ts:37-45 | inserting one project's task rows one by one builds the tables the rows describe |
| Seed.InsertStepsInto | apps/tasktracker/convex/seed.ts:128-136 | inserting a task's checklist one step at a time builds the tables the steps describe |
| Seed.InsertStepsSpec | apps/tasktracker/convex/seed.ts:128-136 | the steps are appended unticked under that task, numbered from 0 in order, with fresh ids |
| Seed.InsertTasksShape | apps/tasktracker/convex/seed.ts:120-138 | one task per row and one subtask per step are appended, and nothing else changes |
| Seed.InsertTasksRows | apps/tasktracker/convex/seed.ts:120-126 | the k-th appended task is the k-th row in that project with `order` k |
| Seed.InsertTasksFresh | apps/tasktracker/convex/seed.ts:120-126 | every seeded task is on no focus list and has no completion time |
| Seed.InsertTasksUnticked | apps/tasktracker/convex/seed.ts:128-136 | every seeded subtask starts unticked |
| Seed.InsertProjectsSpec | apps/tasktracker/convex/seed.ts:12-329 | the existing documents stay in front; one project per block follows, in order, with that block's fields; every inserted task is on no focus list and uncompleted, every inserted subtask unticked |
| Seed.InsertProjectsShape | apps/tasktracker/convex/seed.ts:12-329 | seeding inserts exactly one project per block, every task row of the blocks and every subtask title, and takes one id for each |
| Seed.InsertProjectsTasks | apps/tasktracker/convex/seed.ts:12-329 | the tasks of each block follow those of the earlier blocks in their own order, each with `order` its position and `projectId` the project that block became |
| Seed.SeedSizes | apps/tasktracker/convex/seed.ts:12-329 | the seed describes 6 projects and 43 tasks |
| Seed.SeedOrders | apps/tasktracker/convex/seed.ts:12-329 | each seeded project's `order` is its position |
| Seed.SeedSlugsDistinct | apps/tasktracker/convex/seed.ts:12-329 | seeded slugs are pairwise distinct, so lookup by slug finds each project |
| Seed.SeedStatuses | apps/tasktracker/convex/seed.ts:196-203 | every seeded task starts to-do or blocked, and only a blocked task carries a reason |
| Seed.SeedBlocked | apps/tasktracker/convex/seed.ts:291-317 | the blocked seed data holds: one Flow Bridge task waiting on designers, the blocked low-priority archive project and its blocked task |
| Seed.SeedKeepsToday | apps/tasktracker/convex/seed.ts:37-45 | seeding puts no task on the today list |
| Seed.InsertSorted | apps/tasktracker/convex/seed.ts:13-21 | project rows whose `order` is their position, inserted into an empty table, come out sorted by `order` |
| Seed.SeedSorted | apps/tasktracker/convex/seed.ts:12-329 | seeding an empty store leaves the projects sorted by `order` |
| Text.NatToString | apps/tasktracker/src/components/daily-view.tsx:655 | a number prints as a non-empty string of digits with no leading zero |
| Text.ParseNatToString | apps/tasktracker/src/components/daily-view.tsx:655 | reading the digits back gives the number |
| Text.NatToStringInjective | apps/tasktracker/src/components/daily-view.tsx:655 | distinct numbers print differently |
| TimeAgo.Seconds | apps/tasktracker/src/components/daily-view.tsx:653 | the whole seconds are the floor of the elapsed milliseconds over 1000 |
| TimeAgo.ElapsedSince | apps/tasktracker/src/components/daily-view.tsx:652-658 | exactly one of just now, minutes, hours or days applies, by the 60/3600/86400 thresholds; each amount is the floor of seconds per unit and lies in its range |
| TimeAgo.ParseAmount | apps/tasktracker/src/components/daily-view.tsx:655-657 | `<n><unit> ago` reads back as that amount and unit |
| TimeAgo.ParseRender | apps/tasktracker/src/components/daily-view.tsx:652-658 | every label text reads back as the label it renders |
| TimeAgo.RenderInjective | apps/tasktracker/src/components/daily-view.tsx:652-658 | distinct labels render to distinct texts |
| TimeAgo.Render | apps/tasktracker/src/components/daily-view.tsx:654-657 | "just now" exactly for the first label; every other text is digits, the unit letter m, h or d of its label, then ` ago` |
| TimeAgo.FormatTimeAgo | apps/tasktracker/src/components/daily-view.tsx:652-658 | the text reads back as the elapsed label, and is "just now" exactly within the first minute; the copy at kanban-view.tsx:262-269 is the same |
| TimeAgo.ElapsedMonotone | apps/tasktracker/src/components/daily-view.tsx:652-658 | as the clock advances a label never goes back, and no label overstates the time passed |
| DailyView.ActiveDetails | apps/tasktracker/src/components/daily-view.tsx:41-42 | a focus column keeps exactly the unfinished cards of its list |
| DailyView.TodayShown | apps/tasktracker/src/components/daily-view.tsx:41-43 | the number of TODAY cards is exactly the number of today-list tasks that are not done, so never more than the list holds |
| DailyView.TodayColumn | apps/tasktracker/src/components/daily-view.tsx:41 | the TODAY column shows only unfinished cards, never more than the today list holds, so at most three while capacity holds |
| DailyView.EmptySlots | apps/tasktracker/src/components/daily-view.tsx:110-116 | empty slots show exactly when fewer than three cards do, and then cards plus slots make three |
| DailyView.TodayColumnFilled | apps/tasktracker/src/components/daily-view.tsx:110-116 | while the list keeps its capacity, cards plus empty slots make three, and a slot shows exactly when fewer than three cards do |
| DailyView.ColumnMembers | apps/tasktracker/src/components/daily-view.tsx:41-43 | a column shows exactly the unfinished tasks on that list |
| DailyView.BacklogPickerMembers | apps/tasktracker/src/components/daily-view.tsx:445-449 | the picker offers exactly the selected project's unfinished tasks that are on no list |
| DailyView.BacklogPicker | apps/tasktracker/src/components/daily-view.tsx:443-449 | nothing is offered without a selected project; every offered task is unfinished and on no list, and there are no more of them than tasks of that project |
| DailyView.PickAddsOne | apps/tasktracker/src/components/daily-view.tsx:449 | picking a task from the picker adds exactly one task to the today list |
| KanbanView.ActiveProject | apps/tasktracker/src/components/kanban-view.tsx:27-29 | the selected project when it exists, else the first active project, else the first project; nothing only when the selection is gone or there are no projects |
| KanbanView.Column | apps/tasktracker/src/components/kanban-view.tsx:104-109 | a column holds exactly the tasks of its status |
| KanbanView.BoardPartition | apps/tasktracker/src/components/kanban-view.tsx:104-109 | the four columns together hold every task exactly once |
| KanbanView.BoardColumns | apps/tasktracker/src/components/kanban-view.tsx:104-109 | a card sits in the column of its own status |
| KanbanView.TasksByStatus | apps/tasktracker/src/components/kanban-view.tsx:104-109 | the four columns together are as many cards as there are tasks |
| KanbanView.DropMovesCard | apps/tasktracker/src/components/kanban-view.tsx:111-120 | a drop removes the card from its old column and adds it to the new one; every other column keeps its size |
| KanbanView.HandleDrop | apps/tasktracker/src/components/kanban-view.tsx:111-120 | a drop without an id does nothing; otherwise it is `updateStatus` to the column's status with no reason |
| MobileView.CycleStatus | apps/tasktracker/src/components/mobile-view.tsx:217-225 | a tap never leads to blocked |
| MobileView.CyclePeriod | apps/tasktracker/src/components/mobile-view.tsx:217-225 | todo, in progress and done cycle with period exactly three; blocked restarts at todo |
| MobileView.ActiveCount | apps/tasktracker/src/components/mobile-view.tsx:62 | the count is at most the number of projects and zero exactly when none is active |
| MobileView.TasksLeft | apps/tasktracker/src/components/mobile-view.tsx:67 | over projects whose done count is within their total, tasks left is never negative |
| MobileView.PercentSum | apps/tasktracker/src/components/mobile-view.tsx:73 | over such projects the summed percentages are at most 100 per project |
| MobileView.TasksLeftBounds | apps/tasktracker/src/components/mobile-view.tsx:66-67 | tasks left is never negative, and zero exactly when every project is finished |
| MobileView.Overall | apps/tasktracker/src/components/mobile-view.tsx:73 | the overall figure is the rounded mean of the percentages, or 0 without projects |
| MobileView.OverallBounds | apps/tasktracker/src/components/mobile-view.tsx:73 | the overall figure is at most 100, 100 when every project is complete, 0 when none has begun |
| MobileView.ListStats | apps/tasktracker/src/components/mobile-view.tsx:62-73 | over the list `projects.list` returns, tasks left is non-negative and overall at most 100 |
| MobileView.NextTaskStart | apps/tasktracker/src/components/mobile-view.tsx:129 | the next-task card offers Start exactly when its task has not been started |

## Left out

- The Convex runtime itself is not modelled: transactions, `Promise.all`, reactivity and the generated API. Each mutation is one atomic step on the store.
- Concurrency is not modelled. Two concurrent `create` or `setListPriority` calls could each pass the today-capacity check in a real deployment; the model runs mutations one at a time.
- `Date.now()` becomes a `now` parameter. The two readings inside one mutation (the patch and the log entry) are given the same value.
- `console.log` in `seedAll` is left out, as is its `undefined` return: `Seed.SeedAll` returns whether it seeded, which the source does not report.
- Seed.SeedAll: the six hand-written project blocks are modelled as one table walked by nested loops. The per-block differences are kept as data: which tasks carry a prompt, a status, a blocked reason or steps.
- Floating point is not modelled. `Math.round` and `Math.floor` are computed exactly on rationals and integers.
- Projects.CompletionPercent: the source computes `Math.round((doneTasks / totalTasks) * 100)` in doubles, where the division rounds before the multiplication; the model rounds the exact ratio. The two differ on ordinary counts: at 23 of 40 done the double product is just under 57.5 and shows 57 where the model gives 58, and at 29 of 200 it shows 14 where the model gives 15. The progress-bar widths (daily-view.tsx:310, kanban-view.tsx:219) are display only and left out.
- Projects.LowerChar: only A-Z and the two characters whose lower case is not a single letter of that range (U+0130, U+212A) are mapped, instead of the whole Unicode table of `toLowerCase`.
- ActionLogs.EffectiveLimit: the limit is a natural number; a negative or fractional `limit` is not modelled.
- Ids are natural numbers drawn from one counter, not Convex's opaque strings.
- KanbanView.HandleDrop: `getData("taskId")` is modelled as an optional id. `None` stands for the empty string of a drag that carried no id.
- React state, JSX, styling and the `window` global of the views are left out. So are the mark-done and start buttons, which call `tasks.updateStatus` directly, already modelled as `Tasks.UpdateStatus`.
- `project-view.tsx` and `project-card.tsx` are not part of this model.
- Tasks.ArchiveDone: the loop walks the task table by index and archives the stale done tasks in place, instead of collecting them first and patching each by id. The two agree because ids are distinct.
