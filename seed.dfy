/**
  The seed mutation: on an empty project table it inserts six projects with
  their tasks and subtasks; otherwise it does nothing. The six hand-written
  blocks of the original are one table here, walked by one nested loop.
 */
module Seed {
  import opened Wrappers
  import opened Schema
  import opened Seqs
  import opened Store
  import opened Tasks

  /** One task row of the table: absent fields are `None`, absent subtasks the empty list. */
  datatype SeedTask = SeedTask(
    title: string,
    status: TaskStatus,
    aiPrompt: Option<string>,
    blockedReason: Option<string>,
    subtasks: seq<string>)

  datatype SeedProject = SeedProject(
    name: string,
    slug: string,
    description: string,
    status: ProjectStatus,
    priority: Priority,
    order: int,
    localPath: Option<string>,
    githubPath: Option<string>,
    tasks: seq<SeedTask>)

  function Plain(title: string): SeedTask { SeedTask(title, Todo, None, None, []) }

  function Prompted(title: string, aiPrompt: string): SeedTask { SeedTask(title, Todo, Some(aiPrompt), None, []) }

  function WithSteps(title: string, subtasks: seq<string>): SeedTask { SeedTask(title, Todo, None, None, subtasks) }

  const JocrilTasks: seq<SeedTask> := [
    Prompted("Import products and pricing data", "In jocril-ecommerce, analyze product data and import to Convex. Check for CSV/JSON files first."),
    Plain("Finalize product catalog structure"),
    Plain("Test template-variant system"),
    Plain("Review storefront UI"),
    Prompted("Complete checkout flow", "Implement full checkout: cart → shipping → payment → confirmation."),
    Plain("Test payment integration"),
    Prompted("Set up email notifications (Resend)", "Integrate Resend for order confirmation, shipping updates, welcome email."),
    Plain("Admin panel polish"),
    Plain("Deploy to production"),
    Plain("LAUNCH")
  ]

  const TakeItDownTasks: seq<SeedTask> := [
    WithSteps("Verify YouTube Format Compliance", [
      "Screenshot YouTube privacy complaint form",
      "Screenshot YouTube defamation complaint form",
      "Document character limits for each field",
      "Test current output - copy-paste to YouTube",
      "Update templates to match YouTube exactly"]),
    WithSteps("Add Legal Disclaimers", [
      "Draft disclaimer text",
      "Create DisclaimerBanner component",
      "Add to landing page, wizard, reports",
      "Update Terms of Service"]),
    WithSteps("Write About Page", [
      "Write Maria's story (decide: anonymous?)",
      "Explain why tool exists",
      "Explain pricing (API costs)",
      "Add resources section"]),
    WithSteps("Calculate API Costs", [
      "Run 3-5 test complaints",
      "Check OpenRouter usage",
      "Calculate cost per complaint",
      "Determine break-even point"]),
    WithSteps("Define Pricing Model", [
      "Research competitors",
      "Propose 3 tiers",
      "Get community feedback"]),
    WithSteps("Stripe Integration", [
      "Create Stripe account + products",
      "Build checkout flow",
      "Webhook handling",
      "Update user credits in Convex"]),
    Plain("Add Image Timestamp Manual Entry"),
    Plain("Landing Page Design"),
    Plain("Content Marketing (3 blog posts)"),
    Plain("Beta Launch")
  ]

  const FlowBridgeTasks: seq<SeedTask> := [
    WithSteps("Fix Core Conversion (90%+ success)", [
      "List all files in temp/tests/",
      "Test each file in Webflow",
      "Compare working vs broken HTML",
      "Build webflow-preflight-validator.ts",
      "Add integration tests"]),
    Plain("Rename Project (FlowStach → Flow Bridge?)"),
    WithSteps("Competitor Research", [
      "Analyze Timothee Ricks pricing",
      "Analyze Willum pricing",
      "Analyze Osmo pricing"]),
    WithSteps("Define Pricing Model", [
      "Propose 3 tiers (Free, Pro, Team)",
      "Per-item vs subscription",
      "Choose payment provider"]),
    Plain("CodePen Integration Stabilization"),
    WithSteps("Build Marketplace UI", [
      "Browse page (/explore)",
      "Asset detail pages",
      "My Projects dashboard"]),
    Plain("Payment Integration"),
    SeedTask("Redesign Application", TaskStatus.Blocked, None, Some("Waiting on designers"), []),
    Plain("Connect Flow-Goodies Extension to Convex"),
    Plain("Content Curation (30-50 assets)"),
    Plain("Launch Prep (legal, SEO, analytics)")
  ]

  const DarvoTasks: seq<SeedTask> := [
    Prompted("Remove File Indexing UI", "Comment out Search & Filter tab in main.py (lines 80-91). Keep database. Test app runs."),
    WithSteps("Add URL Input Tab", [
      "New Gradio tab: Analyze Videos",
      "Input: YouTube URLs (one per line)",
      "Input: Names to track",
      "Button: Start Analysis"]),
    Plain("Check Existing Transcripts Before Transcribing"),
    WithSteps("Build Interactive Flagging UI", [
      "Gradio Dataframe with checkboxes",
      "Columns: Timestamp, Quote, Person, Technique",
      "Filter by Person/Technique",
      "Batch actions (Select All)"]),
    WithSteps("Improve Clip Extraction", [
      "User-selected buffer (15s, 30s, 60s)",
      "Smart boundaries",
      "Batch clip generation"]),
    WithSteps("Build Research Website Generator", [
      "Choose framework (Next.js)",
      "Homepage with stats",
      "Evidence pages per technique",
      "Data visualizations"])
  ]

  const ArchiveTasks: seq<SeedTask> := [
    SeedTask("Provide folder access to Claude", TaskStatus.Blocked, None, None, []),
    Plain("Audit scnfiles.com codebase"),
    Plain("Test OCR engines (Adobe, Tesseract, Google)"),
    Plain("Build format preservation layer"),
    Plain("Design microsite template"),
    Plain("Create collaboration workflow")
  ]

  const JocrilProject: SeedProject :=
    SeedProject("Jocril E-commerce", "jocril-ecommerce",
      "E-commerce store for Jocril. ~80% complete, closest to launch.", Active, High, 0,
      Some("C:\\Users\\maria\\Desktop\\pessoal\\jocril\\SITES\\loja-jocril"), Some("projects/jocril-ecommerce"),
      JocrilTasks)

  const TakeItDownProject: SeedProject :=
    SeedProject("Take It Down", "take-it-down",
      "Privacy complaint tool for YouTube harassment. 8-week roadmap to beta.", Active, High, 1,
      Some("C:\\Users\\maria\\Desktop\\pessoal\\take-it-down\\privacy-complaint-tool"), Some("projects/take-it-down"),
      TakeItDownTasks)

  const FlowBridgeProject: SeedProject :=
    SeedProject("Flow Bridge", "flow-stach",
      "HTML/CodePen → Webflow marketplace. 12-week roadmap.", Active, High, 2,
      Some("C:\\Users\\maria\\Desktop\\pessoal\\FLOW_PARTY\\flow-stach"), Some("projects/flow-stach"),
      FlowBridgeTasks)

  const DarvoProject: SeedProject :=
    SeedProject("DARVO Transcripts", "darvo-transcripts",
      "Video analysis tool for harassment patterns. 6-8 week roadmap.", Active, Medium, 3,
      Some("C:\\Users\\maria\\Desktop\\pessoal\\DARVO-Transcripts"), Some("projects/darvo-transcripts"),
      DarvoTasks)

  const ArchiveProject: SeedProject :=
    SeedProject("Scientology Archive", "scientology-archive",
      "Document processing for scnfiles.com. BLOCKED: Awaiting folder access.", ProjectStatus.Blocked, Low, 4,
      None, Some("projects/scientology-archive"),
      ArchiveTasks)

  const ImacxProject: SeedProject :=
    SeedProject("Imacx Management", "imacx-management",
      "Day job task tracking. Maria will populate tasks.", Active, High, 5,
      Some("C:\\Users\\maria\\Desktop\\Imacx\\IMACX_PROD\\NOVO\\imacx\\NEW-APP\\imacx-clean"), Some("projects/imacx-management"),
      [])

  /** The six projects, in insertion order. */
  const SeedData: seq<SeedProject> := [JocrilProject, TakeItDownProject, FlowBridgeProject, DarvoProject, ArchiveProject, ImacxProject]

  // ----- What seeding inserts -----

  /** The three collections the seed writes to, and the next free id. */
  datatype Tables = Tables(projects: seq<Project>, tasks: seq<Task>, subtasks: seq<Subtask>, nextId: nat)

  function Snapshot(db: Store): Tables
    reads db
  {
    Tables(db.projects, db.tasks, db.subtasks, db.nextId)
  }

  /** The subtasks `titles` of task `taskId`, inserted in order with `order` their position. */
  function InsertSteps(t: Tables, taskId: Id, titles: seq<string>): Tables {
    if titles == [] then t
    else
      var n := |titles| - 1;
      var prev := InsertSteps(t, taskId, titles[..n]);
      prev.(subtasks := prev.subtasks + [Subtask(prev.nextId, taskId, titles[n], false, n)], nextId := prev.nextId + 1)
  }

  /** The number of subtasks of the rows. */
  function StepCount(rows: seq<SeedTask>): nat {
    if rows == [] then 0 else StepCount(rows[..|rows| - 1]) + |rows[|rows| - 1].subtasks|
  }

  /** The task document a table row becomes: a task at position `order` of project `projectId`. */
  function TaskRow(id: Id, projectId: Id, row: SeedTask, order: nat): Task {
    Task(id, projectId, row.title, None, row.status, None, row.aiPrompt, row.blockedReason, order, None)
  }

  /** The tasks `rows` of project `projectId`, each followed by its subtasks. */
  function InsertTasks(t: Tables, projectId: Id, rows: seq<SeedTask>): Tables {
    if rows == [] then t
    else
      var n := |rows| - 1;
      var prev := InsertTasks(t, projectId, rows[..n]);
      var taskId := prev.nextId;
      var withTask := prev.(tasks := prev.tasks + [TaskRow(taskId, projectId, rows[n], n)], nextId := taskId + 1);
      InsertSteps(withTask, taskId, rows[n].subtasks)
  }

  function ProjectRow(id: Id, row: SeedProject): Project {
    Project(id, row.name, row.slug, row.description, row.status, row.priority, row.order, row.localPath, row.githubPath)
  }

  /** The projects `rows`, each followed by its tasks. */
  function InsertProjects(t: Tables, rows: seq<SeedProject>): Tables {
    if rows == [] then t
    else
      var n := |rows| - 1;
      var prev := InsertProjects(t, rows[..n]);
      var projectId := prev.nextId;
      var withProject := prev.(projects := prev.projects + [ProjectRow(projectId, rows[n])], nextId := projectId + 1);
      InsertTasks(withProject, projectId, rows[n].tasks)
  }

  /** Each title becomes an unticked subtask of the task, with a fresh id and its position as `order`. */
  lemma {:induction false} InsertStepsSpec(t: Tables, taskId: Id, titles: seq<string>)
    ensures var r := InsertSteps(t, taskId, titles);
      && r.projects == t.projects && r.tasks == t.tasks && r.nextId == t.nextId + |titles|
      && |r.subtasks| == |t.subtasks| + |titles| && r.subtasks[..|t.subtasks|] == t.subtasks
      && forall k :: 0 <= k < |titles| ==> r.subtasks[|t.subtasks| + k] == Subtask(t.nextId + k, taskId, titles[k], false, k)
  {
    if titles != [] {
      var n := |titles| - 1;
      InsertStepsSpec(t, taskId, titles[..n]);
      var prev := InsertSteps(t, taskId, titles[..n]);
      var r := InsertSteps(t, taskId, titles);
      assert r.subtasks[..|t.subtasks|] == prev.subtasks[..|t.subtasks|];
      forall k | 0 <= k < |titles| ensures r.subtasks[|t.subtasks| + k] == Subtask(t.nextId + k, taskId, titles[k], false, k) {
        if k < n {
          assert titles[..n][k] == titles[k];
        }
      }
    }
  }

  lemma StepCountSnoc(rows: seq<SeedTask>, row: SeedTask)
    ensures StepCount(rows + [row]) == StepCount(rows) + |row.subtasks|
  {
    assert (rows + [row])[..|rows|] == rows;
  }

  /** The tasks of the rows come after the existing ones; so do their subtasks, and each takes one id. */
  lemma {:induction false} InsertTasksShape(t: Tables, projectId: Id, rows: seq<SeedTask>)
    ensures var r := InsertTasks(t, projectId, rows);
      && r.projects == t.projects && |r.tasks| == |t.tasks| + |rows| && r.tasks[..|t.tasks|] == t.tasks
      && r.nextId == t.nextId + |rows| + StepCount(rows)
      && |r.subtasks| == |t.subtasks| + StepCount(rows) && r.subtasks[..|t.subtasks|] == t.subtasks
  {
    if rows != [] {
      var n := |rows| - 1;
      InsertTasksShape(t, projectId, rows[..n]);
      var prev := InsertTasks(t, projectId, rows[..n]);
      var taskId := prev.nextId;
      var withTask := prev.(tasks := prev.tasks + [TaskRow(taskId, projectId, rows[n], n)], nextId := taskId + 1);
      var r := InsertTasks(t, projectId, rows);
      assert r == InsertSteps(withTask, taskId, rows[n].subtasks);
      InsertStepsSpec(withTask, taskId, rows[n].subtasks);
      assert r.tasks[..|t.tasks|] == prev.tasks[..|t.tasks|];
      assert r.subtasks[..|t.subtasks|] == withTask.subtasks[..|t.subtasks|];
      assert rows[..n] + [rows[n]] == rows;
      StepCountSnoc(rows[..n], rows[n]);
    }
  }

  /** Each row becomes a task of the project at its position, on no focus list and never completed. */
  lemma {:induction false} InsertTasksRows(t: Tables, projectId: Id, rows: seq<SeedTask>)
    ensures var r := InsertTasks(t, projectId, rows);
      |r.tasks| == |t.tasks| + |rows| &&
      forall k :: 0 <= k < |rows| ==> r.tasks[|t.tasks| + k].(id := 0) == TaskRow(0, projectId, rows[k], k)
  {
    if rows != [] {
      var n := |rows| - 1;
      InsertTasksRows(t, projectId, rows[..n]);
      var prev := InsertTasks(t, projectId, rows[..n]);
      var taskId := prev.nextId;
      var withTask := prev.(tasks := prev.tasks + [TaskRow(taskId, projectId, rows[n], n)], nextId := taskId + 1);
      var r := InsertTasks(t, projectId, rows);
      assert r == InsertSteps(withTask, taskId, rows[n].subtasks);
      InsertStepsSpec(withTask, taskId, rows[n].subtasks);
      assert r.tasks == prev.tasks + [TaskRow(taskId, projectId, rows[n], n)];
      assert |prev.tasks| == |t.tasks| + n;
      forall k | 0 <= k < |rows| ensures r.tasks[|t.tasks| + k].(id := 0) == TaskRow(0, projectId, rows[k], k) {
        if k < n {
          assert r.tasks[|t.tasks| + k] == prev.tasks[|t.tasks| + k];
          assert rows[..n][k] == rows[k];
        } else {
          assert r.tasks[|t.tasks| + k] == TaskRow(taskId, projectId, rows[n], n);
        }
      }
    }
  }

  /** Every task the rows bring is on no focus list and uncompleted. */
  lemma InsertTasksFresh(t: Tables, projectId: Id, rows: seq<SeedTask>)
    ensures var r := InsertTasks(t, projectId, rows);
      |r.tasks| >= |t.tasks| && forall k :: |t.tasks| <= k < |r.tasks| ==> r.tasks[k].listPriority == None && r.tasks[k].completedAt == None
  {
    InsertTasksRows(t, projectId, rows);
    var r := InsertTasks(t, projectId, rows);
    forall k | |t.tasks| <= k < |r.tasks| ensures r.tasks[k].listPriority == None && r.tasks[k].completedAt == None {
      var j := k - |t.tasks|;
      assert r.tasks[|t.tasks| + j].(id := 0) == TaskRow(0, projectId, rows[j], j);
    }
  }

  /** Every subtask the rows bring is unticked. */
  lemma {:induction false} InsertTasksUnticked(t: Tables, projectId: Id, rows: seq<SeedTask>)
    ensures var r := InsertTasks(t, projectId, rows);
      |r.subtasks| >= |t.subtasks| && forall k :: |t.subtasks| <= k < |r.subtasks| ==> !r.subtasks[k].done
  {
    if rows != [] {
      var n := |rows| - 1;
      InsertTasksUnticked(t, projectId, rows[..n]);
      var prev := InsertTasks(t, projectId, rows[..n]);
      var taskId := prev.nextId;
      var withTask := prev.(tasks := prev.tasks + [TaskRow(taskId, projectId, rows[n], n)], nextId := taskId + 1);
      var r := InsertTasks(t, projectId, rows);
      assert r == InsertSteps(withTask, taskId, rows[n].subtasks);
      InsertStepsSpec(withTask, taskId, rows[n].subtasks);
      forall k | |t.subtasks| <= k < |r.subtasks| ensures !r.subtasks[k].done {
        if k < |prev.subtasks| {
          assert r.subtasks[k] == r.subtasks[..|prev.subtasks|][k];
          assert r.subtasks[..|prev.subtasks|] == prev.subtasks;
        } else {
          var j := k - |withTask.subtasks|;
          assert r.subtasks[|withTask.subtasks| + j] == Subtask(withTask.nextId + j, taskId, rows[n].subtasks[j], false, j);
        }
      }
    }
  }

  /**
    Each row becomes a project with its own fields, and every task and
    subtask the rows bring is on no focus list, uncompleted and unticked.
   */
  lemma {:induction false} InsertProjectsSpec(t: Tables, rows: seq<SeedProject>)
    ensures var r := InsertProjects(t, rows);
      && |r.projects| == |t.projects| + |rows| && r.projects[..|t.projects|] == t.projects
      && |r.tasks| >= |t.tasks| && r.tasks[..|t.tasks|] == t.tasks
      && |r.subtasks| >= |t.subtasks| && r.subtasks[..|t.subtasks|] == t.subtasks
      && (forall k :: 0 <= k < |rows| ==> r.projects[|t.projects| + k].(id := 0) == ProjectRow(0, rows[k]))
      && (forall k :: |t.tasks| <= k < |r.tasks| ==> r.tasks[k].listPriority == None && r.tasks[k].completedAt == None)
      && forall k :: |t.subtasks| <= k < |r.subtasks| ==> !r.subtasks[k].done
  {
    if rows != [] {
      var n := |rows| - 1;
      InsertProjectsSpec(t, rows[..n]);
      var prev := InsertProjects(t, rows[..n]);
      var projectId := prev.nextId;
      var withProject := prev.(projects := prev.projects + [ProjectRow(projectId, rows[n])], nextId := projectId + 1);
      InsertTasksShape(withProject, projectId, rows[n].tasks);
      InsertTasksFresh(withProject, projectId, rows[n].tasks);
      InsertTasksUnticked(withProject, projectId, rows[n].tasks);
      var r := InsertProjects(t, rows);
      assert r == InsertTasks(withProject, projectId, rows[n].tasks);
      assert r.projects[..|t.projects|] == prev.projects[..|t.projects|];
      assert r.tasks[..|t.tasks|] == withProject.tasks[..|t.tasks|];
      assert r.subtasks[..|t.subtasks|] == withProject.subtasks[..|t.subtasks|];
      forall k | 0 <= k < |rows| ensures r.projects[|t.projects| + k].(id := 0) == ProjectRow(0, rows[k]) {
        if k < n {
          assert r.projects[|t.projects| + k] == prev.projects[|t.projects| + k];
          assert rows[..n][k] == rows[k];
        }
      }
      forall k | |t.tasks| <= k < |r.tasks| ensures r.tasks[k].listPriority == None && r.tasks[k].completedAt == None {
        if k < |prev.tasks| {
          assert r.tasks[k] == r.tasks[..|prev.tasks|][k];
          assert r.tasks[..|prev.tasks|] == prev.tasks;
        }
      }
      forall k | |t.subtasks| <= k < |r.subtasks| ensures !r.subtasks[k].done {
        if k < |prev.subtasks| {
          assert r.subtasks[k] == r.subtasks[..|prev.subtasks|][k];
          assert r.subtasks[..|prev.subtasks|] == prev.subtasks;
        }
      }
    }
  }

  // ----- Properties of the table -----

  /** The number of task rows of the project rows. */
  function TaskTotal(rows: seq<SeedProject>): nat {
    if rows == [] then 0 else TaskTotal(rows[..|rows| - 1]) + |rows[|rows| - 1].tasks|
  }

  /** The number of subtask titles of the project rows. */
  function StepTotal(rows: seq<SeedProject>): nat {
    if rows == [] then 0 else StepTotal(rows[..|rows| - 1]) + StepCount(rows[|rows| - 1].tasks)
  }

  /**
    Seeding adds one project per row, every task row and every subtask title
    of the rows, and takes one id for each.
   */
  lemma {:induction false} InsertProjectsShape(t: Tables, rows: seq<SeedProject>)
    ensures var r := InsertProjects(t, rows);
      && |r.projects| == |t.projects| + |rows|
      && |r.tasks| == |t.tasks| + TaskTotal(rows)
      && |r.subtasks| == |t.subtasks| + StepTotal(rows)
      && r.nextId == t.nextId + |rows| + TaskTotal(rows) + StepTotal(rows)
  {
    if rows != [] {
      var n := |rows| - 1;
      InsertProjectsShape(t, rows[..n]);
      var prev := InsertProjects(t, rows[..n]);
      var projectId := prev.nextId;
      var withProject := prev.(projects := prev.projects + [ProjectRow(projectId, rows[n])], nextId := projectId + 1);
      InsertTasksShape(withProject, projectId, rows[n].tasks);
      var r := InsertProjects(t, rows);
      assert r == InsertTasks(withProject, projectId, rows[n].tasks);
    }
  }

  /** The tasks of the rows before row `k`, and those of row `k`, fit in all the rows' tasks. */
  lemma {:induction false} TaskTotalPrefix(rows: seq<SeedProject>, k: nat)
    requires k < |rows|
    ensures TaskTotal(rows[..k]) + |rows[k].tasks| <= TaskTotal(rows)
  {
    var n := |rows| - 1;
    if k < n {
      TaskTotalPrefix(rows[..n], k);
      assert rows[..n][..k] == rows[..k];
    } else {
      assert rows[..k] == rows[..n];
    }
  }

  /**
    The tasks of project row `k` sit, in their own order, right after `base`
    and the tasks of the rows before it, and each belongs to the project at
    position `pbase + k`.
   */
  ghost predicate TaskBlocks(tasks: seq<Task>, base: nat, projects: seq<Project>, pbase: nat, rows: seq<SeedProject>) {
    forall k, j :: 0 <= k < |rows| && 0 <= j < |rows[k].tasks| ==> BlockEntry(tasks, base, projects, pbase, rows, k, j)
  }

  /** Task `j` of row `k` is where `TaskBlocks` puts it. */
  ghost predicate BlockEntry(tasks: seq<Task>, base: nat, projects: seq<Project>, pbase: nat, rows: seq<SeedProject>, k: nat, j: nat)
    requires k < |rows| && j < |rows[k].tasks|
  {
    && pbase + k < |projects| && base + TaskTotal(rows[..k]) + j < |tasks|
    && tasks[base + TaskTotal(rows[..k]) + j].(id := 0) == TaskRow(0, projects[pbase + k].id, rows[k].tasks[j], j)
  }

  /** Appending the block of the last row to tables that hold the blocks of the others. */
  lemma TaskBlocksSnoc(before: seq<Task>, tasks: seq<Task>, base: nat, inBefore: seq<Project>, projects: seq<Project>, pbase: nat, rows: seq<SeedProject>)
    requires rows != [] && TaskBlocks(before, base, inBefore, pbase, rows[..|rows| - 1])
    requires |before| == base + TaskTotal(rows[..|rows| - 1]) && |before| <= |tasks| && tasks[..|before|] == before
    requires |inBefore| == pbase + |rows| - 1 < |projects| && projects[..|inBefore|] == inBefore
    requires var last := rows[|rows| - 1].tasks;
      |before| + |last| <= |tasks| &&
      forall j :: 0 <= j < |last| ==> tasks[|before| + j].(id := 0) == TaskRow(0, projects[|inBefore|].id, last[j], j)
    ensures TaskBlocks(tasks, base, projects, pbase, rows)
  {
    var n := |rows| - 1;
    forall k, j | 0 <= k < |rows| && 0 <= j < |rows[k].tasks| ensures BlockEntry(tasks, base, projects, pbase, rows, k, j) {
      if k < n {
        var row := rows[..n][k];
        assert rows[..n][..k] == rows[..k] && row == rows[k];
        assert BlockEntry(before, base, inBefore, pbase, rows[..n], k, j);
        var at := base + TaskTotal(rows[..k]) + j;
        assert tasks[at] == tasks[..|before|][at];
        assert projects[pbase + k] == projects[..|inBefore|][pbase + k];
      } else {
        assert rows[..k] == rows[..n];
      }
    }
  }

  /** Seeding lays out the tasks of the project rows one block per row, each under its own project. */
  lemma {:induction false} InsertProjectsTasks(t: Tables, rows: seq<SeedProject>)
    ensures var r := InsertProjects(t, rows);
      TaskBlocks(r.tasks, |t.tasks|, r.projects, |t.projects|, rows)
  {
    if rows != [] {
      var n := |rows| - 1;
      InsertProjectsTasks(t, rows[..n]);
      InsertProjectsShape(t, rows[..n]);
      var prev := InsertProjects(t, rows[..n]);
      var projectId := prev.nextId;
      var withProject := prev.(projects := prev.projects + [ProjectRow(projectId, rows[n])], nextId := projectId + 1);
      var r := InsertProjects(t, rows);
      assert r == InsertTasks(withProject, projectId, rows[n].tasks);
      InsertTasksShape(withProject, projectId, rows[n].tasks);
      InsertTasksRows(withProject, projectId, rows[n].tasks);
      assert r.projects[|prev.projects|].id == projectId;
      TaskBlocksSnoc(prev.tasks, r.tasks, |t.tasks|, prev.projects, r.projects, |t.projects|, rows);
    }
  }

  /** Six projects with 43 tasks between them. */
  lemma SeedSizes()
    ensures |SeedData| == 6
    ensures TaskTotal(SeedData) == 43
  {
    assert SeedData[..0] == [];
    assert TaskTotal(SeedData[..1]) == 10 by { assert SeedData[..1][..0] == SeedData[..0]; }
    assert TaskTotal(SeedData[..2]) == 20 by { assert SeedData[..2][..1] == SeedData[..1]; }
    assert TaskTotal(SeedData[..3]) == 31 by { assert SeedData[..3][..2] == SeedData[..2]; }
    assert TaskTotal(SeedData[..4]) == 37 by { assert SeedData[..4][..3] == SeedData[..3]; }
    assert TaskTotal(SeedData[..5]) == 43 by { assert SeedData[..5][..4] == SeedData[..4]; }
    assert SeedData[..6] == SeedData;
  }

  /** Each project's `order` is its position, so the projects list shows them in insertion order. */
  lemma SeedOrders()
    ensures forall k :: 0 <= k < |SeedData| ==> SeedData[k].order == k
  {
  }

  /** No two seeded projects share a slug, so `getBySlug` finds each of them. */
  lemma SeedSlugsDistinct()
    ensures forall i, j :: 0 <= i < j < |SeedData| ==> SeedData[i].slug != SeedData[j].slug
  {
  }

  /** A task row starts as `todo` or `blocked`, and is blocked when it carries a reason. */
  predicate StartsOpen(row: SeedTask) {
    && (row.status == Todo || row.status == TaskStatus.Blocked)
    && (row.blockedReason.Some? ==> row.status == TaskStatus.Blocked)
  }

  predicate AllStartOpen(rows: seq<SeedTask>) {
    forall j :: 0 <= j < |rows| ==> StartsOpen(rows[j])
  }

  lemma JocrilStartsOpen()
    ensures AllStartOpen(JocrilTasks)
  {
  }

  lemma TakeItDownStartsOpen()
    ensures AllStartOpen(TakeItDownTasks)
  {
  }

  lemma FlowBridgeStartsOpen()
    ensures AllStartOpen(FlowBridgeTasks)
  {
  }

  lemma DarvoStartsOpen()
    ensures AllStartOpen(DarvoTasks)
  {
  }

  lemma ArchiveStartsOpen()
    ensures AllStartOpen(ArchiveTasks)
  {
  }

  /** Every seeded task starts as `todo` or `blocked`, never done, and a task with a blocked reason is blocked. */
  lemma SeedStatuses()
    ensures forall k :: 0 <= k < |SeedData| ==> AllStartOpen(SeedData[k].tasks)
  {
    JocrilStartsOpen();
    TakeItDownStartsOpen();
    FlowBridgeStartsOpen();
    DarvoStartsOpen();
    ArchiveStartsOpen();
    assert AllStartOpen([]);
  }

  /** The blocked rows: the redesign task of Flow Bridge, and the blocked Scientology Archive with its folder-access task. */
  lemma SeedBlocked()
    ensures SeedData[2].tasks[7].status == TaskStatus.Blocked && SeedData[2].tasks[7].blockedReason == Some("Waiting on designers")
    ensures SeedData[4].status == ProjectStatus.Blocked && SeedData[4].tasks[0].status == TaskStatus.Blocked
    ensures SeedData[4].priority == Priority.Low
  {
  }

  /** Seeding puts nothing on the TODAY list, so it keeps the list within its capacity. */
  lemma SeedKeepsToday(t: Tables, rows: seq<SeedProject>)
    ensures TodayCount(InsertProjects(t, rows).tasks) == TodayCount(t.tasks)
  {
    var r := InsertProjects(t, rows);
    InsertProjectsSpec(t, rows);
    var added := r.tasks[|t.tasks|..];
    assert r.tasks == t.tasks + added;
    FilterAppend(t.tasks, added, OnList(Today));
    assert forall i :: 0 <= i < |added| ==> added[i] == r.tasks[|t.tasks| + i];
    FilterNone(added, OnList(Today));
  }

  /** Rows whose `order` is their position, inserted into an empty table, come out sorted by `order`. */
  lemma InsertSorted(t: Tables, rows: seq<SeedProject>)
    requires t.projects == []
    requires forall k :: 0 <= k < |rows| ==> rows[k].order == k
    ensures SortedBy(InsertProjects(t, rows).projects, ProjectOrder)
  {
    var r := InsertProjects(t, rows);
    InsertProjectsSpec(t, rows);
    assert forall k :: 0 <= k < |rows| ==> r.projects[k].order == k by {
      forall k | 0 <= k < |rows| ensures r.projects[k].order == k {
        assert r.projects[0 + k].(id := 0) == ProjectRow(0, rows[k]);
      }
    }
  }

  /** Seeding an empty project table leaves the projects sorted by `order` in collection order. */
  lemma SeedSorted(t: Tables)
    requires t.projects == []
    ensures SortedBy(InsertProjects(t, SeedData).projects, ProjectOrder)
  {
    SeedOrders();
    InsertSorted(t, SeedData);
  }

  // ----- The mutation -----

  method InsertStepsInto(db: Store, taskId: Id, titles: seq<string>)
    requires db.Valid()
    modifies db
    ensures db.Valid() && db.logs == old(db.logs)
    ensures Snapshot(db) == InsertSteps(old(Snapshot(db)), taskId, titles)
  {
    ghost var start := Snapshot(db);
    for j := 0 to |titles|
      invariant db.Valid() && db.logs == old(db.logs)
      invariant Snapshot(db) == InsertSteps(start, taskId, titles[..j])
    {
      assert titles[..j + 1][..j] == titles[..j];
      var _ := db.InsertSubtask(Subtask(0, taskId, titles[j], false, j));
    }
    assert titles[..|titles|] == titles;
  }

  method InsertTasksInto(db: Store, projectId: Id, rows: seq<SeedTask>)
    requires db.Valid()
    modifies db
    ensures db.Valid() && db.logs == old(db.logs)
    ensures Snapshot(db) == InsertTasks(old(Snapshot(db)), projectId, rows)
  {
    ghost var start := Snapshot(db);
    for i := 0 to |rows|
      invariant db.Valid() && db.logs == old(db.logs)
      invariant Snapshot(db) == InsertTasks(start, projectId, rows[..i])
    {
      assert rows[..i + 1][..i] == rows[..i];
      ghost var prev := Snapshot(db);
      var row := rows[i];
      var taskId := db.InsertTask(TaskRow(0, projectId, row, i));
      ghost var withTask := prev.(tasks := prev.tasks + [TaskRow(taskId, projectId, row, i)], nextId := taskId + 1);
      assert TaskRow(0, projectId, row, i).(id := taskId) == TaskRow(taskId, projectId, row, i);
      assert Snapshot(db) == withTask;
      assert InsertTasks(start, projectId, rows[..i + 1]) == InsertSteps(withTask, taskId, row.subtasks);
      InsertStepsInto(db, taskId, row.subtasks);
    }
    assert rows[..|rows|] == rows;
  }

  method InsertProjectsInto(db: Store, rows: seq<SeedProject>)
    requires db.Valid()
    modifies db
    ensures db.Valid() && db.logs == old(db.logs)
    ensures Snapshot(db) == InsertProjects(old(Snapshot(db)), rows)
  {
    ghost var start := Snapshot(db);
    for i := 0 to |rows|
      invariant db.Valid() && db.logs == old(db.logs)
      invariant Snapshot(db) == InsertProjects(start, rows[..i])
    {
      assert rows[..i + 1][..i] == rows[..i];
      ghost var prev := Snapshot(db);
      var row := rows[i];
      var projectId := db.InsertProject(ProjectRow(0, row));
      ghost var withProject := prev.(projects := prev.projects + [ProjectRow(projectId, row)], nextId := projectId + 1);
      assert ProjectRow(0, row).(id := projectId) == ProjectRow(projectId, row);
      assert Snapshot(db) == withProject;
      assert InsertProjects(start, rows[..i + 1]) == InsertTasks(withProject, projectId, row.tasks);
      InsertTasksInto(db, projectId, row.tasks);
    }
    assert rows[..|rows|] == rows;
  }

  /**
    `seed.seedAll`: when the project table is empty, inserts the six projects
    of the table with their tasks and subtasks; otherwise changes nothing.
    No log entry is written either way.
   */
  method SeedAll(db: Store) returns (seeded: bool)
    requires db.Valid()
    modifies db
    ensures db.Valid() && db.logs == old(db.logs)
    ensures seeded <==> old(db.projects) == []
    ensures !seeded ==> Snapshot(db) == old(Snapshot(db))
    ensures seeded ==> Snapshot(db) == InsertProjects(old(Snapshot(db)), SeedData)
    // the seeded store holds the six projects, so a second run is a no-op
    ensures seeded ==> |db.projects| == |SeedData| && db.projects != []
  {
    if db.projects != [] {
      return false;
    }
    InsertProjectsInto(db, SeedData);
    InsertProjectsShape(old(Snapshot(db)), SeedData);
    SeedSizes();
    return true;
  }
}
