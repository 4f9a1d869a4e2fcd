/**
 * The task card: the due-date status, the goal progress and which controls
 * and badges the card shows for a task at a given instant.
 */
module TaskCard {
  import opened Types

  datatype DueStatus = NoDue | Overdue | DueToday | Upcoming

  /** date-fns `isPast`: strictly before now. */
  predicate IsPast(t: Instant, now: Instant)
  {
    t < now
  }

  /** date-fns `isToday`: on the current calendar day. */
  predicate IsToday(t: Instant, now: Instant)
  {
    DayOf(t) == DayOf(now)
  }

  /** `dueDateStatus`: none, overdue (past and not today), due today, or upcoming. */
  function Status(dueDate: Option<Instant>, now: Instant): DueStatus
  {
    match dueDate
    case None => NoDue
    case Some(d) =>
      if IsPast(d, now) && !IsToday(d, now) then Overdue
      else if IsToday(d, now) then DueToday
      else Upcoming
  }

  /**
   * The status depends only on calendar days: a due date on an earlier day is
   * overdue, on today is due today (even when its hour has passed), and on a
   * later day is upcoming.
   */
  lemma StatusByDay(d: Instant, now: Instant)
    ensures Status(Some(d), now) == Overdue <==> DayOf(d) < DayOf(now)
    ensures Status(Some(d), now) == DueToday <==> DayOf(d) == DayOf(now)
    ensures Status(Some(d), now) == Upcoming <==> DayOf(d) > DayOf(now)
  {
    if d < now {
      DayOfMonotone(d, now);
    } else {
      DayOfMonotone(now, d);
    }
  }

  /**
   * `progressPercentage`: 0 without a goal or with a zero target, otherwise
   * the progress as a percentage of the target, not clamped.
   */
  function Percentage(goal: Option<Goal>, current: real): (p: real)
    ensures goal.None? ==> p == 0.0
    ensures goal.Some? && goal.value.target == 0.0 ==> p == 0.0
    ensures goal.Some? && goal.value.target != 0.0 ==> p * goal.value.target == current * 100.0
  {
    if goal.None? || goal.value.target == 0.0 then 0.0
    else current / goal.value.target * 100.0
  }

  /** With a positive target the bar is full exactly when the progress reaches the target. */
  lemma PercentageReachesFull(goal: Goal, current: real)
    requires goal.target > 0.0
    ensures Percentage(Some(goal), current) >= 100.0 <==> current >= goal.target
  {
    var p := Percentage(Some(goal), current);
    assert p * goal.target == current * 100.0;
    if p >= 100.0 {
      assert p * goal.target >= 100.0 * goal.target;
    } else {
      assert p * goal.target < 100.0 * goal.target;
    }
  }

  /** More progress never shows a smaller percentage. */
  lemma PercentageMonotone(goal: Goal, a: real, b: real)
    requires goal.target > 0.0 && a <= b
    ensures Percentage(Some(goal), a) <= Percentage(Some(goal), b)
  {
    assert a / goal.target <= b / goal.target;
  }

  /** The due-date badge's colour. */
  datatype Tone = Plain | Red | Amber

  /** What the card shows for a task. */
  datatype CardView = CardView(
    checkbox: bool,
    repeatIcon: bool,
    struckThrough: bool,
    currentProgress: real,
    percentage: real,
    progressBar: bool,
    dueBadge: bool,
    badgeTone: Tone,
    recurrenceBadge: bool,
    tagBadges: seq<Tag>,
    logButton: bool)

  /**
   * The card of `t` at `now`: a completion checkbox for one-off tasks and a
   * repeat icon for recurring ones, a due badge only on one-off tasks, the
   * red or amber tone only on open tasks, and the progress bar and the Log
   * button together, for tasks with a goal.
   */
  function Card(t: Task, now: Instant): (c: CardView)
    ensures c.checkbox == t.recurrence.None? && c.repeatIcon == t.recurrence.Some?
    ensures c.checkbox != c.repeatIcon
    ensures c.dueBadge == (t.dueDate.Some? && t.recurrence.None?)
    ensures c.struckThrough == t.completed && c.tagBadges == t.tags
    ensures c.progressBar == t.goal.Some? && c.logButton == t.goal.Some?
    ensures t.progress.Some? ==> c.currentProgress == SumValues(t.progress.value)
    ensures c.percentage == Percentage(t.goal, c.currentProgress)
    ensures c.recurrenceBadge == c.repeatIcon
    ensures c.badgeTone != Plain ==> c.dueBadge && !t.completed
    ensures c.logButton == c.progressBar
    ensures !c.progressBar ==> c.percentage == 0.0
    ensures t.progress.None? ==> c.currentProgress == 0.0
  {
    var status := Status(t.dueDate, now);
    var current := CurrentProgress(t.progress);
    var badge := t.dueDate.Some? && t.recurrence.None?;
    CardView(
      t.recurrence.None?,
      t.recurrence.Some?,
      t.completed,
      current,
      Percentage(t.goal, current),
      t.goal.Some?,
      badge,
      if badge && status == Overdue && !t.completed then Red
      else if badge && status == DueToday && !t.completed then Amber
      else Plain,
      t.recurrence.Some?,
      t.tags,
      t.goal.Some?)
  }

  /**
   * On a one-off open task with a due date the badge is red exactly when the
   * due day is before today and amber exactly when it is today; a completed
   * task's badge is never coloured.
   */
  lemma BadgeToneByDay(t: Task, now: Instant)
    requires t.dueDate.Some? && t.recurrence.None?
    ensures Card(t, now).badgeTone == Red <==> !t.completed && DayOf(t.dueDate.value) < DayOf(now)
    ensures Card(t, now).badgeTone == Amber <==> !t.completed && DayOf(t.dueDate.value) == DayOf(now)
  {
    StatusByDay(t.dueDate.value, now);
  }
}
