/**
  The mobile view: the status a tap on a task row moves it to, the three
  quick statistics over the projects list, and when the "What's Next" card
  offers to start its task.
 */
module MobileView {
  import opened Wrappers
  import opened Schema
  import opened Seqs
  import opened Tasks
  import opened Projects

  /** `cycleStatus`: todo, in progress, done and round again; a blocked task restarts at todo. */
  function CycleStatus(s: TaskStatus): (r: TaskStatus)
    ensures r != TaskStatus.Blocked
  {
    match s
    case Todo => InProgress
    case InProgress => Done
    case Done => Todo
    case Blocked => Todo
  }

  /** Three taps bring an unblocked task back to its status, and no fewer do; a blocked task joins the cycle at todo. */
  lemma CyclePeriod(s: TaskStatus)
    ensures s != TaskStatus.Blocked ==> CycleStatus(CycleStatus(CycleStatus(s))) == s
    ensures s != TaskStatus.Blocked ==> CycleStatus(s) != s && CycleStatus(CycleStatus(s)) != s
    ensures s == TaskStatus.Blocked ==> CycleStatus(s) == Todo
  {
  }

  /** "Active": the number of projects whose status is active. */
  function ActiveCount(projects: seq<ProjectStats>): (r: nat)
    ensures r <= |projects|
    ensures r == 0 <==> forall i :: 0 <= i < |projects| ==> projects[i].project.status != Active
  {
    var active := Filter(projects, StatsActive);
    FilterMembers(projects, StatsActive);
    assert (forall i :: 0 <= i < |projects| ==> !StatsActive(projects[i])) ==> active == [] by {
      if forall i :: 0 <= i < |projects| ==> !StatsActive(projects[i]) {
        FilterNone(projects, StatsActive);
      }
    }
    |active|
  }

  /**
    `projects.reduce((acc, p) => acc + (p.totalTasks - p.doneTasks), 0)`,
    folded from the left; never negative while no project counts more done
    tasks than tasks.
   */
  function TasksLeft(projects: seq<ProjectStats>): (r: int)
    ensures WellCounted(projects) ==> r >= 0
  {
    if projects == [] then 0
    else
      var n := |projects| - 1;
      var last := projects[n];
      WellCountedPrefix(projects, n);
      TasksLeft(projects[..n]) + (last.totalTasks - last.doneTasks)
  }

  /**
    `projects.reduce((acc, p) => acc + p.completionPercent, 0)`, folded from
    the left; at most 100 per project while each percentage is at most 100.
   */
  function PercentSum(projects: seq<ProjectStats>): (r: nat)
    ensures WellCounted(projects) ==> r <= 100 * |projects|
  {
    if projects == [] then 0
    else
      var n := |projects| - 1;
      WellCountedPrefix(projects, n);
      PercentSum(projects[..n]) + projects[n].completionPercent
  }

  lemma WellCountedPrefix(projects: seq<ProjectStats>, n: nat)
    requires n <= |projects|
    ensures WellCounted(projects) ==> WellCounted(projects[..n])
  {
    assert forall i :: 0 <= i < n ==> projects[..n][i] == projects[i];
  }

  /** Every project's counts and percentage are in range, as `projects.list` produces them. */
  predicate WellCounted(projects: seq<ProjectStats>) {
    forall i :: 0 <= i < |projects| ==> projects[i].doneTasks <= projects[i].totalTasks && projects[i].completionPercent <= 100
  }

  /** When no project counts more done tasks than tasks, none are left over negative, and none are left exactly when every project is finished. */
  lemma {:induction false} TasksLeftBounds(projects: seq<ProjectStats>)
    requires WellCounted(projects)
    ensures TasksLeft(projects) >= 0
    ensures TasksLeft(projects) == 0 <==> forall i :: 0 <= i < |projects| ==> projects[i].doneTasks == projects[i].totalTasks
  {
    if projects != [] {
      var n := |projects| - 1;
      assert WellCounted(projects[..n]) by {
        forall i | 0 <= i < n ensures projects[..n][i] == projects[i] {}
      }
      TasksLeftBounds(projects[..n]);
      assert forall i :: 0 <= i < n ==> projects[..n][i] == projects[i];
    }
  }

  /** Percentages of at most 100 add up to at most 100 per project, and to exactly that when all are 100. */
  lemma {:induction false} PercentSumBounds(projects: seq<ProjectStats>)
    requires WellCounted(projects)
    ensures PercentSum(projects) <= 100 * |projects|
    ensures (forall i :: 0 <= i < |projects| ==> projects[i].completionPercent == 100) ==> PercentSum(projects) == 100 * |projects|
    ensures (forall i :: 0 <= i < |projects| ==> projects[i].completionPercent == 0) ==> PercentSum(projects) == 0
  {
    if projects != [] {
      var n := |projects| - 1;
      assert forall i :: 0 <= i < n ==> projects[..n][i] == projects[i];
      PercentSumBounds(projects[..n]);
    }
  }

  /**
    "Overall": `Math.round(sum / length)` of the completion percentages, or 0
    with no projects; `Math.round(x)` is `floor(x + 1/2)`, on exact rationals.
   */
  function Overall(projects: seq<ProjectStats>): (r: nat)
    ensures projects == [] ==> r == 0
    ensures projects != [] ==> 2 * r * |projects| <= 2 * PercentSum(projects) + |projects| < 2 * (r + 1) * |projects|
  {
    if projects == [] then 0
    else
      var n, sum := |projects|, PercentSum(projects);
      var r := (2 * sum + n) / (2 * n);
      FloorDiv(2 * sum + n, 2 * n);
      assert 2 * r * n == (2 * n) * r && 2 * (r + 1) * n == (2 * n) * (r + 1);
      r
  }

  /** What the rounding bounds say about a mean of `n` values whose sum is `sum`. */
  lemma MeanBounds(sum: nat, n: nat, r: nat)
    requires n > 0 && 2 * r * n <= 2 * sum + n < 2 * (r + 1) * n
    ensures sum <= 100 * n ==> r <= 100
    ensures sum == 100 * n ==> r == 100
    ensures sum == 0 ==> r == 0
  {
    var d := 2 * n;
    assert d * r <= 2 * sum + n < d * (r + 1);
    if sum <= 100 * n {
      assert d * r < d * 101;
      LessUnderFactor(r, 101, d);
    }
    if sum == 100 * n {
      assert d * 100 < d * (r + 1);
      LessUnderFactor(99, r, d);
    }
    if sum == 0 {
      assert d * r < d * 1;
      LessUnderFactor(r, 1, d);
    }
  }

  /** The overall figure is a percentage: at most 100, exactly 100 when every project is complete, 0 when none has begun. */
  lemma OverallBounds(projects: seq<ProjectStats>)
    requires WellCounted(projects)
    ensures Overall(projects) <= 100
    ensures projects != [] && (forall i :: 0 <= i < |projects| ==> projects[i].completionPercent == 100) ==> Overall(projects) == 100
    ensures (forall i :: 0 <= i < |projects| ==> projects[i].completionPercent == 0) ==> Overall(projects) == 0
  {
    PercentSumBounds(projects);
    if projects != [] {
      MeanBounds(PercentSum(projects), |projects|, Overall(projects));
    }
  }

  /** The list `projects.list` returns is well counted, so its statistics are in range. */
  lemma ListStats(projects: seq<Project>, tasks: seq<Task>)
    ensures TasksLeft(Projects.List(projects, tasks)) >= 0
    ensures Overall(Projects.List(projects, tasks)) <= 100
  {
    var l := Projects.List(projects, tasks);
    ListSpec(projects, tasks);
    assert WellCounted(l) by {
      forall i | 0 <= i < |l| ensures l[i].doneTasks <= l[i].totalTasks && l[i].completionPercent <= 100 {
        assert l[i] == WithStats(l[i].project, tasks);
      }
    }
    TasksLeftBounds(l);
    OverallBounds(l);
  }

  /** The "What's Next" card offers Start only for a task still to do. */
  predicate OffersStart(next: NextTask) { next.task.status == Todo }

  /** The next task the query picks is still to do exactly when it has not been started. */
  lemma NextTaskStart(projects: seq<Project>, tasks: seq<Task>, projectSlug: Option<string>)
    ensures var r := NextTaskQuery(projects, tasks, projectSlug);
      r.Some? ==> (OffersStart(r.value) <==> r.value.task.status != InProgress)
  {
    NextTaskSound(projects, tasks, projectSlug);
  }
}
