/**
 * The progress-log dialog: a value field checked by the form schema, the
 * date fixed when the dialog mounts, the submit rule and the "logged so far
 * today" figure.
 */
module ProgressDialog {
  import opened Types
  import Store

  const NEGATIVE_MESSAGE: string := "Progress must be a positive number."

  /** The schema's `min(0)`: negative values are refused, zero is accepted. */
  predicate ValidValue(v: real)
  {
    v >= 0.0
  }

  /** What a submit does. */
  datatype Action =
    | Rejected(message: string)               // the schema refuses the value; the handler is not called
    | LogProgress(taskId: Id, log: ProgressLog) // `onLogProgress(task.id, data)`
    | Close                                   // `onOpenChange(false)`

  /**
   * The schema check followed by `handleSubmit`: a negative value is refused,
   * a positive value for an open task is logged as it is under the form's
   * date, and anything else (zero, or no task) only closes the dialog.
   */
  function Submit(task: Option<Task>, date: Day, value: real): (a: Action)
    ensures a.Rejected? <==> !ValidValue(value)
    ensures a.LogProgress? <==> task.Some? && value > 0.0
    ensures a.LogProgress? ==> a.taskId == task.value.id && a.log.date == date && a.log.value == value
    ensures a.Close? <==> value == 0.0 || (task.None? && value > 0.0)
  {
    if !ValidValue(value) then Rejected(NEGATIVE_MESSAGE)
    else if task.Some? && value > 0.0 then LogProgress(task.value.id, ProgressLog(date, value))
    else Close
  }

  /**
   * `totalProgressToday`: the value of the first entry dated `day`, or 0 when
   * there is none or no progress at all.
   */
  function TotalOn(progress: Option<seq<ProgressLog>>, day: Day): (r: real)
    ensures !HasLogOn(progress, day) ==> r == 0.0
  {
    match progress
    case None => 0.0
    case Some(logs) =>
      var i := Store.FindDate(logs, day);
      if i < |logs| then logs[i].value else 0.0
  }

  /** With one entry per date, the figure is that date's entry. */
  lemma TotalOnEntry(logs: seq<ProgressLog>, k: nat)
    requires Store.UniqueDates(logs) && k < |logs|
    ensures TotalOn(Some(logs), logs[k].date) == logs[k].value
  {
    var i := Store.FindDate(logs, logs[k].date);
    assert i <= k;
  }

  /**
   * As written: the store overwrites the day's entry with the submitted
   * value, so after a log the day's figure is the value just entered, not the
   * earlier figure plus it.
   */
  lemma LoggedValueReplacesTotal(task: Task, date: Day, value: real)
    requires value > 0.0
    requires Store.UniqueDates(task.progress.GetOr([]))
    ensures Submit(Some(task), date, value).LogProgress?
    ensures TotalOn(Some(Store.Upsert(task.progress.GetOr([]), Submit(Some(task), date, value).log)), date) == value
  {
    var logs := task.progress.GetOr([]);
    var log := ProgressLog(date, value);
    Store.UpsertKeepsUniqueDates(logs, log);
    var after := Store.Upsert(logs, log);
    var k :| 0 <= k < |after| && after[k] == log;
    TotalOnEntry(after, k);
  }

  /** Logging 3 and then 2 on the same day leaves 2 for the day, where the dialog promised 5. */
  lemma TwoLogsKeepOnlyTheSecond(task: Task, date: Day)
    requires task.progress == Some([])
    ensures var first := Store.Upsert([], Submit(Some(task), date, 3.0).log);
            var second := Store.Upsert(first, Submit(Some(task), date, 2.0).log);
            TotalOn(Some(second), date) == 2.0 && TotalOn(Some(second), date) != 3.0 + 2.0
  {
    var first := Store.Upsert([], ProgressLog(date, 3.0));
    assert first == [ProgressLog(date, 3.0)];
    assert Store.FindDate(first, date) == 0;
    var second := Store.Upsert(first, ProgressLog(date, 2.0));
    assert second == [ProgressLog(date, 2.0)];
    assert Store.FindDate(second, date) == 0;
  }

  /**
   * Corrected submit: the dialog asks for the additional progress, so it
   * sends the day's figure plus the entered value; the rest of the rule is
   * unchanged.
   */
  function SubmitAdditive(task: Option<Task>, date: Day, value: real): (a: Action)
    ensures a.Rejected? <==> !ValidValue(value)
    ensures a.LogProgress? <==> task.Some? && value > 0.0
    ensures a.LogProgress? ==> a.taskId == task.value.id && a.log.date == date
  {
    match Submit(task, date, value)
    case LogProgress(id, log) => LogProgress(id, ProgressLog(date, TotalOn(task.value.progress, date) + value))
    case other => other
  }

  /** With the corrected submit each log adds its value to the day's figure. */
  lemma AdditiveLogAccumulates(task: Task, date: Day, value: real)
    requires value > 0.0
    requires Store.UniqueDates(task.progress.GetOr([]))
    ensures SubmitAdditive(Some(task), date, value).LogProgress?
    ensures TotalOn(Some(Store.Upsert(task.progress.GetOr([]), SubmitAdditive(Some(task), date, value).log)), date)
            == TotalOn(task.progress, date) + value
  {
    var logs := task.progress.GetOr([]);
    assert TotalOn(task.progress, date) == TotalOn(Some(logs), date);
    var log := ProgressLog(date, TotalOn(task.progress, date) + value);
    Store.UpsertKeepsUniqueDates(logs, log);
    var after := Store.Upsert(logs, log);
    var k :| 0 <= k < |after| && after[k] == log;
    TotalOnEntry(after, k);
  }

  class ProgressLogDialog {
    /** `format(new Date(), 'yyyy-MM-dd')` when the dialog mounts; never updated. */
    const currentDate: Day
    var task: Option<Task>
    var date: Day
    var value: real

    /** The form's default values are the mount date and 0. */
    constructor(today: Day, task: Option<Task>)
      ensures currentDate == today && this.task == task
      ensures date == today && value == 0.0
    {
      currentDate := today;
      this.task := task;
      date := today;
      value := 0.0;
    }

    /** The reset effect: a newly selected task starts from the mount date and 0. */
    method TaskChanged(t: Option<Task>)
      modifies this
      ensures task == t
      ensures t.Some? ==> date == currentDate && value == 0.0
      ensures t.None? ==> date == old(date) && value == old(value)
    {
      task := t;
      if t.Some? {
        date := currentDate;
        value := 0.0;
      }
    }

    /** Typing into the value field. */
    method Input(v: real)
      modifies this
      ensures value == v
      ensures task == old(task) && date == old(date)
    {
      value := v;
    }

    /** The submit button: the action taken; the dialog's own state is not touched. */
    method SubmitForm() returns (a: Action)
      ensures a == Submit(task, date, value)
    {
      if value < 0.0 {
        a := Rejected(NEGATIVE_MESSAGE);
      } else if task.Some? && value > 0.0 {
        a := LogProgress(task.value.id, ProgressLog(date, value));
      } else {
        a := Close;
      }
    }

    /** "You've logged ... so far today", for the open task. */
    method LoggedToday() returns (r: real)
      ensures task.Some? ==> r == TotalOn(task.value.progress, currentDate)
      ensures task.None? ==> r == 0.0
    {
      r := 0.0;
      if task.Some? && task.value.progress.Some? {
        var logs := task.value.progress.value;
        var i := 0;
        while i < |logs| && logs[i].date != currentDate
          invariant 0 <= i <= |logs|
          invariant forall j | 0 <= j < i :: logs[j].date != currentDate
        {
          i := i + 1;
        }
        FindDateAt(logs, currentDate, i);
        if i < |logs| {
          r := logs[i].value;
        }
      }
    }
  }

  /** `FindDate` is the position of the first entry with the date. */
  lemma {:induction false} FindDateAt(logs: seq<ProgressLog>, day: Day, i: nat)
    requires i <= |logs| && (i < |logs| ==> logs[i].date == day)
    requires forall j | 0 <= j < i :: logs[j].date != day
    ensures Store.FindDate(logs, day) == i
  {
    if logs != [] && logs[0].date != day {
      FindDateAt(logs[1..], day, i - 1);
    }
  }

  /**
   * A dialog opened on a task, given a positive value and submitted, logs
   * that value for the task under the mount date.
   */
  method LogSession(today: Day, t: Task, v: real) returns (a: Action)
    requires v > 0.0
    ensures a == LogProgress(t.id, ProgressLog(today, v))
  {
    var dialog := new ProgressLogDialog(today, None);
    dialog.TaskChanged(Some(t));
    dialog.Input(v);
    a := dialog.SubmitForm();
  }
}
