/**
 * The dashboard's goal-progress card: every task with a goal of positive
 * target, in task order, with its progress sum and its percentage of the
 * target.
 */
module GoalProgress {
  import opened Types
  import opened Seqs
  import TaskCard

  /** `task.goal && task.goal.target > 0`. */
  predicate HasPositiveTarget(t: Task)
  {
    t.goal.Some? && t.goal.value.target > 0.0
  }

  /** A task spread into a row together with its two derived numbers. */
  datatype GoalRow = GoalRow(task: Task, currentProgress: real, progressPercentage: real)

  /**
   * One row: the progress sum (0 without logs) and the progress as a
   * percentage of the target, which the filter makes non-zero, so the card's
   * guarded percentage is the plain quotient here; it is not clamped, so it
   * exceeds 100 once the target is passed.
   */
  function Row(t: Task): (r: GoalRow)
    requires HasPositiveTarget(t)
    ensures r.task == t
    ensures t.progress.None? ==> r.currentProgress == 0.0
    ensures t.progress.Some? ==> r.currentProgress == SumValues(t.progress.value)
    ensures r.progressPercentage * t.goal.value.target == r.currentProgress * 100.0
    ensures r.progressPercentage >= 100.0 <==> r.currentProgress >= t.goal.value.target
  {
    var current := CurrentProgress(t.progress);
    TaskCard.PercentageReachesFull(t.goal.value, current);
    GoalRow(t, current, TaskCard.Percentage(t.goal, current))
  }

  /** `goalTasksWithProgress`: filter, then map. */
  function Rows(tasks: seq<Task>): (r: seq<GoalRow>)
    ensures |r| <= |tasks|
    ensures forall i | 0 <= i < |r| :: HasPositiveTarget(r[i].task) && r[i] == Row(r[i].task)
  {
    if tasks == [] then []
    else
      var t := tasks[|tasks| - 1];
      Rows(tasks[..|tasks| - 1]) + (if HasPositiveTarget(t) then [Row(t)] else [])
  }

  /** The tasks behind the rows. */
  function TasksOf(rows: seq<GoalRow>): (r: seq<Task>)
    ensures |r| == |rows|
    ensures forall i | 0 <= i < |rows| :: r[i] == rows[i].task
  {
    if rows == [] then [] else TasksOf(rows[..|rows| - 1]) + [rows[|rows| - 1].task]
  }

  lemma TasksOfAppend(a: seq<GoalRow>, b: seq<GoalRow>)
    ensures TasksOf(a + b) == TasksOf(a) + TasksOf(b)
  {
  }

  /** The rows are exactly the filtered tasks, in input order. */
  lemma {:induction false} RowsAreFiltered(tasks: seq<Task>)
    ensures TasksOf(Rows(tasks)) == Filter(tasks, HasPositiveTarget)
    decreases |tasks|
  {
    if tasks != [] {
      var init := tasks[..|tasks| - 1];
      var t := tasks[|tasks| - 1];
      RowsAreFiltered(init);
      TasksOfAppend(Rows(init), if HasPositiveTarget(t) then [Row(t)] else []);
    }
  }

  /** A task gets a row exactly when it has a goal with a positive target. */
  lemma RowsMembers(tasks: seq<Task>, t: Task)
    ensures t in TasksOf(Rows(tasks)) <==> t in tasks && HasPositiveTarget(t)
  {
    RowsAreFiltered(tasks);
    FilterMembers(tasks, HasPositiveTarget, t);
  }

  /** Logging past the target shows more than 100 percent: 25 of 10 is 250. */
  lemma NotClamped(t: Task)
    requires t.goal == Some(Goal(Count, 10.0, None))
    requires t.progress == Some([ProgressLog(0, 20.0), ProgressLog(1, 5.0)])
    ensures Rows([t]) == [GoalRow(t, 25.0, 250.0)]
  {
    var logs := [ProgressLog(0, 20.0), ProgressLog(1, 5.0)];
    assert logs[..1] == [ProgressLog(0, 20.0)];
    assert SumValues(logs) == 25.0;
    assert [t][..0] == [];
  }
}
