/**
 * The dashboard's derived data: task counts, the tasks with goals, the
 * completions of the last seven days, the task count per project and the
 * upcoming tasks. The home page and the dashboard page compute it with the
 * same code.
 */
module Dashboard {
  import opened Types
  import opened Seqs

  /** One bar of the completion chart: a day and the tasks completed on it. */
  datatype DayCount = DayCount(day: Day, completed: nat)

  /** One slice of the project chart. */
  datatype ProjectCount = ProjectCount(name: string, value: nat)

  datatype DashboardData = DashboardData(
    totalTasks: nat,
    completedTasks: nat,
    activeTasks: int,
    goalTasks: seq<Task>,
    tasksCompletedLast7Days: seq<DayCount>,
    tasksByProject: seq<ProjectCount>,
    upcomingTasks: seq<Task>)

  predicate IsCompleted(t: Task)
  {
    t.completed
  }

  predicate IsOpen(t: Task)
  {
    !t.completed
  }

  predicate HasGoal(t: Task)
  {
    t.goal.Some?
  }

  function Reverse<T>(s: seq<T>): (r: seq<T>)
    ensures |r| == |s| && forall i | 0 <= i < |s| :: r[i] == s[|s| - 1 - i]
  {
    if s == [] then [] else Reverse(s[1..]) + [s[0]]
  }

  /** The seven calendar days ending today, oldest first. */
  function Last7Days(today: Day): (r: seq<Day>)
    ensures |r| == 7
  {
    Reverse(seq(7, i => today - i))
  }

  /** The window is seven consecutive days, strictly ascending, ending today. */
  lemma Last7DaysShape(today: Day)
    ensures forall i | 0 <= i < 7 :: Last7Days(today)[i] == today - 6 + i
    ensures forall i, j | 0 <= i < j < 7 :: Last7Days(today)[i] < Last7Days(today)[j]
    ensures Last7Days(today)[6] == today
  {
  }

  /** The completed tasks whose last update fell on `day`. */
  function CompletedOn(tasks: seq<Task>, day: Day): nat
  {
    if tasks == [] then 0
    else
      var t := tasks[|tasks| - 1];
      CompletedOn(tasks[..|tasks| - 1], day) + (if t.completed && DayOf(t.updatedAt) == day then 1 else 0)
  }

  /** The completed tasks whose last update fell on a day in `lo..hi - 1`. */
  function CompletedBetween(tasks: seq<Task>, lo: Day, hi: Day): nat
  {
    if tasks == [] then 0
    else
      var t := tasks[|tasks| - 1];
      CompletedBetween(tasks[..|tasks| - 1], lo, hi) + (if t.completed && lo <= DayOf(t.updatedAt) < hi then 1 else 0)
  }

  function Histogram(tasks: seq<Task>, days: seq<Day>): (r: seq<DayCount>)
    ensures |r| == |days| && forall i | 0 <= i < |days| :: r[i].day == days[i]
  {
    if days == [] then [] else [DayCount(days[0], CompletedOn(tasks, days[0]))] + Histogram(tasks, days[1..])
  }

  function SumCounts(bars: seq<DayCount>): nat
  {
    if bars == [] then 0 else SumCounts(bars[..|bars| - 1]) + bars[|bars| - 1].completed
  }

  /** Extending the range by one day adds that day's completions. */
  lemma {:induction false} CompletedBetweenExtend(tasks: seq<Task>, lo: Day, hi: Day)
    requires lo < hi
    ensures CompletedBetween(tasks, lo, hi) == CompletedBetween(tasks, lo, hi - 1) + CompletedOn(tasks, hi - 1)
    decreases |tasks|
  {
    if tasks != [] {
      CompletedBetweenExtend(tasks[..|tasks| - 1], lo, hi);
    }
  }

  /** A day's completions never exceed the completed tasks. */
  lemma {:induction false} CompletedOnBound(tasks: seq<Task>, day: Day)
    ensures CompletedOn(tasks, day) <= |Filter(tasks, IsCompleted)|
    decreases |tasks|
  {
    if tasks != [] {
      CompletedOnBound(tasks[..|tasks| - 1], day);
    }
  }

  /** The consecutive days `lo..hi - 1`. */
  function DayRange(lo: Day, hi: Day): (r: seq<Day>)
    ensures |r| == if lo <= hi then hi - lo else 0
    ensures forall i | 0 <= i < |r| :: r[i] == lo + i
    decreases hi - lo
  {
    if hi <= lo then [] else DayRange(lo, hi - 1) + [hi - 1]
  }

  lemma SumCountsSnoc(bars: seq<DayCount>, b: DayCount)
    ensures SumCounts(bars + [b]) == SumCounts(bars) + b.completed
  {
    assert (bars + [b])[..|bars|] == bars;
  }

  /** The bars over consecutive days add up to the completions in the whole range. */
  lemma {:induction false} HistogramSum(tasks: seq<Task>, lo: Day, hi: Day)
    requires lo <= hi
    ensures SumCounts(Histogram(tasks, DayRange(lo, hi))) == CompletedBetween(tasks, lo, hi)
    decreases hi - lo
  {
    if hi == lo {
      EmptyRange(tasks, lo);
    } else {
      HistogramSum(tasks, lo, hi - 1);
      HistogramSnoc(tasks, DayRange(lo, hi - 1), hi - 1);
      SumCountsSnoc(Histogram(tasks, DayRange(lo, hi - 1)), DayCount(hi - 1, CompletedOn(tasks, hi - 1)));
      CompletedBetweenExtend(tasks, lo, hi);
    }
  }

  lemma {:induction false} EmptyRange(tasks: seq<Task>, lo: Day)
    ensures CompletedBetween(tasks, lo, lo) == 0
    decreases |tasks|
  {
    if tasks != [] {
      EmptyRange(tasks[..|tasks| - 1], lo);
    }
  }

  lemma {:induction false} HistogramSnoc(tasks: seq<Task>, days: seq<Day>, d: Day)
    ensures Histogram(tasks, days + [d]) == Histogram(tasks, days) + [DayCount(d, CompletedOn(tasks, d))]
    decreases |days|
  {
    if days != [] {
      assert (days + [d])[1..] == days[1..] + [d];
      HistogramSnoc(tasks, days[1..], d);
    }
  }

  /** The tasks of project `id`. */
  function CountInProject(tasks: seq<Task>, id: Id): nat
  {
    if tasks == [] then 0
    else CountInProject(tasks[..|tasks| - 1], id) + (if tasks[|tasks| - 1].projectId == id then 1 else 0)
  }

  /** `projects.map(p => ({name, value: count})).filter(p => p.value > 0)`. */
  function TasksByProject(tasks: seq<Task>, projects: seq<Project>): (r: seq<ProjectCount>)
    ensures forall i | 0 <= i < |r| :: r[i].value > 0
  {
    if projects == [] then []
    else
      var p := projects[0];
      var entry := ProjectCount(p.name, CountInProject(tasks, p.id));
      (if entry.value > 0 then [entry] else []) + TasksByProject(tasks, projects[1..])
  }

  /**
   * The chart has one slice per project with at least one task, in project
   * order: each slice comes from a project and every project with tasks
   * has its slice.
   */
  lemma {:induction false} TasksByProjectExact(tasks: seq<Task>, projects: seq<Project>)
    ensures forall e | e in TasksByProject(tasks, projects) ::
              exists p | p in projects :: e == ProjectCount(p.name, CountInProject(tasks, p.id))
    ensures forall p | p in projects && CountInProject(tasks, p.id) > 0 ::
              ProjectCount(p.name, CountInProject(tasks, p.id)) in TasksByProject(tasks, projects)
    ensures TasksByProject(tasks, projects) == [] <==> forall p | p in projects :: CountInProject(tasks, p.id) == 0
    decreases |projects|
  {
    if projects != [] {
      TasksByProjectExact(tasks, projects[1..]);
      assert forall p | p in projects[1..] :: p in projects;
      assert forall p | p in projects :: p == projects[0] || p in projects[1..];
    }
  }

  /** The tasks listed as upcoming: open, with a due date on a day after today. */
  predicate IsUpcoming(t: Task, today: Day)
  {
    !t.completed && t.dueDate.Some? && DayOf(t.dueDate.value) > today
  }

  function UpcomingCandidates(tasks: seq<Task>, today: Day): (r: seq<Task>)
    ensures forall i | 0 <= i < |r| :: IsUpcoming(r[i], today)
  {
    if tasks == [] then []
    else
      var t := tasks[|tasks| - 1];
      UpcomingCandidates(tasks[..|tasks| - 1], today) + (if IsUpcoming(t, today) then [t] else [])
  }

  lemma {:induction false} UpcomingCandidatesMembers(tasks: seq<Task>, today: Day, t: Task)
    ensures t in UpcomingCandidates(tasks, today) <==> t in tasks && IsUpcoming(t, today)
    decreases |tasks|
  {
    if tasks != [] {
      UpcomingCandidatesMembers(tasks[..|tasks| - 1], today, t);
      assert tasks == tasks[..|tasks| - 1] + [tasks[|tasks| - 1]];
    }
  }

  /** The sort key of the upcoming list: the due instant. */
  function DueKey(t: Task): int
  {
    if t.dueDate.Some? then t.dueDate.value else 0
  }

  /** The upcoming list, soonest first. */
  function UpcomingTasks(tasks: seq<Task>, today: Day): (r: seq<Task>)
    ensures forall i | 0 <= i < |r| :: IsUpcoming(r[i], today)
  {
    var candidates := UpcomingCandidates(tasks, today);
    var r := SortBy(candidates, DueKey);
    assert forall i | 0 <= i < |r| :: IsUpcoming(r[i], today) by {
      forall i | 0 <= i < |r| ensures IsUpcoming(r[i], today) {
        SortByMembers(candidates, DueKey, r[i]);
      }
    }
    r
  }

  /**
   * The upcoming list holds exactly the open tasks due after today, so
   * tasks due today or overdue are left out, and it is sorted by due date.
   */
  lemma UpcomingExact(tasks: seq<Task>, today: Day, t: Task)
    ensures t in UpcomingTasks(tasks, today) <==> t in tasks && !t.completed && t.dueDate.Some? && DayOf(t.dueDate.value) > today
    ensures SortedBy(UpcomingTasks(tasks, today), DueKey)
    ensures forall i, j | 0 <= i < j < |UpcomingTasks(tasks, today)| ::
              UpcomingTasks(tasks, today)[i].dueDate.value <= UpcomingTasks(tasks, today)[j].dueDate.value
  {
    UpcomingCandidatesMembers(tasks, today, t);
    SortByMembers(UpcomingCandidates(tasks, today), DueKey, t);
  }

  /** The dashboard data, or nothing while loading, on error or while data is missing. */
  function Compute(loading: bool, error: bool, tasks: Option<seq<Task>>, projects: Option<seq<Project>>, now: Instant): (r: Option<DashboardData>)
    ensures r.None? <==> loading || error || tasks.None? || projects.None?
    ensures r.Some? ==> 0 <= r.value.completedTasks <= r.value.totalTasks == |tasks.value| &&
                        r.value.activeTasks == r.value.totalTasks - r.value.completedTasks &&
                        |r.value.tasksCompletedLast7Days| == 7
  {
    if loading || error || tasks.None? || projects.None? then None
    else
      var ts := tasks.value;
      var total := |ts|;
      var completed := |Filter(ts, IsCompleted)|;
      var today := DayOf(now);
      Some(DashboardData(
        total,
        completed,
        total - completed,
        Filter(ts, HasGoal),
        Histogram(ts, Last7Days(today)),
        TasksByProject(ts, projects.value),
        UpcomingTasks(ts, DayOf(now))))
  }

  /** The active count is the number of open tasks. */
  lemma ActiveCount(tasks: seq<Task>, projects: seq<Project>, now: Instant)
    ensures Compute(false, false, Some(tasks), Some(projects), now).value.activeTasks == |Filter(tasks, IsOpen)|
  {
    FilterComplement(tasks, IsCompleted, IsOpen);
  }

  /**
   * The goal list holds exactly the tasks with a goal, and filtering each
   * part of a split list gives the same list, so input order is kept.
   */
  lemma GoalTasksExact(tasks: seq<Task>, projects: seq<Project>, now: Instant)
    ensures var g := Compute(false, false, Some(tasks), Some(projects), now).value.goalTasks;
            (forall t :: t in g <==> t in tasks && t.goal.Some?) &&
            (forall a, b | a + b == tasks :: g == Filter(a, HasGoal) + Filter(b, HasGoal))
  {
    forall t ensures t in Filter(tasks, HasGoal) <==> t in tasks && t.goal.Some? {
      FilterMembers(tasks, HasGoal, t);
    }
    forall a, b | a + b == tasks ensures Filter(tasks, HasGoal) == Filter(a, HasGoal) + Filter(b, HasGoal) {
      FilterAppend(a, b, HasGoal);
    }
  }

  /**
   * The bars cover the seven days ending today, oldest first; each counts
   * the completed tasks last updated that day, none exceeds the completed
   * count, and together they count the completions of the week.
   */
  lemma LastWeekBars(tasks: seq<Task>, projects: seq<Project>, now: Instant)
    ensures var d := Compute(false, false, Some(tasks), Some(projects), now).value;
            (forall i | 0 <= i < 7 :: d.tasksCompletedLast7Days[i] ==
               DayCount(DayOf(now) - 6 + i, CompletedOn(tasks, DayOf(now) - 6 + i))) &&
            (forall i | 0 <= i < 7 :: d.tasksCompletedLast7Days[i].completed <= d.completedTasks) &&
            SumCounts(d.tasksCompletedLast7Days) == CompletedBetween(tasks, DayOf(now) - 6, DayOf(now) + 1)
  {
    WeekWindow(tasks, projects, now);
    WeekBars(tasks, DayOf(now));
  }

  /** The dashboard's seven bars are the histogram of the week ending today. */
  lemma WeekWindow(tasks: seq<Task>, projects: seq<Project>, now: Instant)
    ensures var d := Compute(false, false, Some(tasks), Some(projects), now).value;
            d.tasksCompletedLast7Days == Histogram(tasks, DayRange(DayOf(now) - 6, DayOf(now) + 1)) &&
            d.completedTasks == |Filter(tasks, IsCompleted)|
  {
    var today := DayOf(now);
    var d := Compute(false, false, Some(tasks), Some(projects), now).value;
    assert d.tasksCompletedLast7Days == Histogram(tasks, Last7Days(today));
    Last7DaysIsRange(today);
  }

  /** The window is the day range from six days ago up to and including today. */
  lemma Last7DaysIsRange(today: Day)
    ensures Last7Days(today) == DayRange(today - 6, today + 1)
  {
    Last7DaysShape(today);
  }

  /** The histogram of the week ending `today`, bar by bar, bounded and summed. */
  lemma WeekBars(tasks: seq<Task>, today: Day)
    ensures var bars := Histogram(tasks, DayRange(today - 6, today + 1));
            |bars| == 7 &&
            (forall i | 0 <= i < 7 :: bars[i] == DayCount(today - 6 + i, CompletedOn(tasks, today - 6 + i))) &&
            (forall i | 0 <= i < 7 :: bars[i].completed <= |Filter(tasks, IsCompleted)|) &&
            SumCounts(bars) == CompletedBetween(tasks, today - 6, today + 1)
  {
    var bars := Histogram(tasks, DayRange(today - 6, today + 1));
    forall i | 0 <= i < 7 ensures bars[i] == DayCount(today - 6 + i, CompletedOn(tasks, today - 6 + i)) {
      WeekBarAt(tasks, today, i);
    }
    forall i | 0 <= i < 7 ensures bars[i].completed <= |Filter(tasks, IsCompleted)| {
      WeekBarAt(tasks, today, i);
      CompletedOnBound(tasks, today - 6 + i);
    }
    HistogramSum(tasks, today - 6, today + 1);
  }

  /** Bar `i` of the week ending `today` counts day `today - 6 + i`. */
  lemma WeekBarAt(tasks: seq<Task>, today: Day, i: nat)
    requires i < 7
    ensures Histogram(tasks, DayRange(today - 6, today + 1))[i] == DayCount(today - 6 + i, CompletedOn(tasks, today - 6 + i))
  {
    var days := DayRange(today - 6, today + 1);
    assert days[i] == today - 6 + i;
    HistogramAt(tasks, days, i);
  }

  lemma {:induction false} HistogramAt(tasks: seq<Task>, days: seq<Day>, i: nat)
    requires i < |days|
    ensures Histogram(tasks, days)[i] == DayCount(days[i], CompletedOn(tasks, days[i]))
    decreases i
  {
    if i > 0 {
      HistogramAt(tasks, days[1..], i - 1);
    }
  }
}
