/**
 * The task detail dialog: the task's project, its progress, whether its due
 * date carries a time of day, and which sections the dialog shows.
 */
module TaskDetail {
  import opened Types
  import TaskCard

  /** The position of the first project with id `id`, `|projects|` when there is none. */
  function ProjectIndex(projects: seq<Project>, id: Id): (i: nat)
    ensures i <= |projects|
    ensures i < |projects| ==> projects[i].id == id
    ensures forall j | 0 <= j < i :: projects[j].id != id
  {
    if projects == [] then 0
    else if projects[0].id == id then 0
    else 1 + ProjectIndex(projects[1..], id)
  }

  /** `projects.find(p => p.id === task.projectId)`. */
  function FindProject(projects: seq<Project>, id: Id): (r: Option<Project>)
    ensures r.Some? ==> r.value in projects && r.value.id == id
    ensures r.None? <==> forall j | 0 <= j < |projects| :: projects[j].id != id
  {
    var i := ProjectIndex(projects, id);
    if i < |projects| then Some(projects[i]) else None
  }

  /** Project ids are distinct, as store document ids are. */
  predicate UniqueProjectIds(projects: seq<Project>)
  {
    forall i, j | 0 <= i < j < |projects| :: projects[i].id != projects[j].id
  }

  /** With distinct ids the lookup finds the one project carrying the id. */
  lemma FindProjectUnique(projects: seq<Project>, k: nat)
    requires UniqueProjectIds(projects) && k < |projects|
    ensures FindProject(projects, projects[k].id) == Some(projects[k])
  {
    var i := ProjectIndex(projects, projects[k].id);
    assert i <= k;
  }

  /** `hasTime`: a due date whose hour or minute is not zero. */
  predicate HasTime(dueDate: Option<Instant>)
  {
    dueDate.Some? && (HourOf(dueDate.value) != 0 || MinuteOf(dueDate.value) != 0)
  }

  /**
   * A due date shows a time exactly when it lies at least a minute past the
   * start of its day; the seconds of the first minute do not count.
   */
  lemma HasTimeIffPastFirstMinute(t: Instant)
    ensures HasTime(Some(t)) <==> t - StartOfDay(DayOf(t)) >= MINUTE_MS
  {
    TimeOfDayOffset(t);
    var h := HourOf(t);
    var m := MinuteOf(t);
    if h != 0 {
      assert h * HOUR_MS >= HOUR_MS;
    } else if m != 0 {
      assert m * MINUTE_MS >= MINUTE_MS;
    }
  }

  /** A date picked without a time is midnight, which shows no time. */
  lemma MidnightHasNoTime(d: Day)
    ensures !HasTime(Some(StartOfDay(d)))
  {
    HasTimeIffPastFirstMinute(StartOfDay(d));
    assert DayOf(StartOfDay(d)) == d;
  }

  /** What the dialog shows for an open task. */
  datatype DetailView = DetailView(
    title: string,
    project: Option<Project>,
    currentProgress: real,
    percentage: real,
    descriptionSection: bool,
    dueLine: bool,
    showTime: bool,
    recursLine: bool,
    tagsSection: bool,
    goalSection: bool)

  /**
   * The dialog for `task`, or nothing when no task is selected. The due line
   * belongs to one-off tasks and the recurrence line to recurring ones, so at
   * most one of them shows; the time shows only on the due line.
   */
  function Detail(task: Option<Task>, projects: seq<Project>): (r: Option<DetailView>)
    ensures r.None? <==> task.None?
    ensures r.Some? ==> r.value.dueLine == (task.value.dueDate.Some? && task.value.recurrence.None?)
    ensures r.Some? ==> r.value.recursLine == task.value.recurrence.Some?
    ensures r.Some? ==> !(r.value.dueLine && r.value.recursLine)
    ensures r.Some? ==> r.value.goalSection == task.value.goal.Some?
    ensures r.Some? && task.value.progress.Some? ==> r.value.currentProgress == SumValues(task.value.progress.value)
    ensures r.Some? ==> r.value.project == FindProject(projects, task.value.projectId)
    ensures r.Some? && r.value.showTime ==> r.value.dueLine && HasTime(task.value.dueDate)
    ensures r.Some? && r.value.dueLine ==> task.value.dueDate.Some?
    ensures r.Some? && r.value.project.Some? ==> r.value.project.value in projects && r.value.project.value.id == task.value.projectId
    ensures r.Some? && !r.value.goalSection ==> r.value.percentage == 0.0
    ensures r.Some? ==> r.value.percentage == TaskCard.Percentage(task.value.goal, r.value.currentProgress)
  {
    match task
    case None => None
    case Some(t) =>
      var current := CurrentProgress(t.progress);
      var dueLine := t.dueDate.Some? && t.recurrence.None?;
      Some(DetailView(
        t.title,
        FindProject(projects, t.projectId),
        current,
        TaskCard.Percentage(t.goal, current),
        t.description.Some? && t.description.value != [],
        dueLine,
        dueLine && HasTime(t.dueDate),
        t.recurrence.Some?,
        |t.tags| > 0,
        t.goal.Some?))
  }

  /**
   * The dialog and the card agree: the same progress sum and percentage, the
   * due line where the card has its due badge and the recurrence line where
   * the card has its recurrence badge.
   */
  lemma DetailAgreesWithCard(t: Task, projects: seq<Project>, now: Instant)
    ensures Detail(Some(t), projects).value.currentProgress == TaskCard.Card(t, now).currentProgress
    ensures Detail(Some(t), projects).value.percentage == TaskCard.Card(t, now).percentage
    ensures Detail(Some(t), projects).value.dueLine == TaskCard.Card(t, now).dueBadge
    ensures Detail(Some(t), projects).value.recursLine == TaskCard.Card(t, now).recurrenceBadge
    ensures Detail(Some(t), projects).value.goalSection == TaskCard.Card(t, now).progressBar
  {
  }
}
