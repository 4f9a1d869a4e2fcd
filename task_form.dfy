/**
 * The task form: its validation schema, the transformation `handleSubmit`
 * applies before handing the data on, the values `resetForm` loads from a
 * task, and the effect that clears dependent fields when the recurring
 * switch flips.
 */
module Forms {
  import opened Types
  import opened Text

  /**
   * The form's field values. Empty text fields are `""`; a select or number
   * field left unset is `None`; `projectId` is `None` for the empty id.
   */
  datatype FormValues = FormValues(
    title: string,
    description: string,
    projectId: Option<Id>,
    dueDate: Option<Instant>,
    dueTime: string,
    tags: string,
    isRecurring: bool,
    recurrence: Option<Recurrence>,
    goalType: Option<GoalType>,
    goalTarget: Option<real>,
    goalUnit: string)

  /** A submitted due date: none, an instant, or the invalid date `setHours(NaN)` yields. */
  datatype DueDate = NoDueDate | DueAt(instant: Instant) | InvalidDate

  /** What `handleSubmit` passes on. */
  datatype Submission = Submission(
    title: string,
    description: Option<string>,
    projectId: Option<Id>,
    dueDate: DueDate,
    tags: seq<string>,
    recurrence: Option<Recurrence>,
    goal: Option<Goal>)

  /** `!!goalTarget` for a number field. */
  predicate Truthy(x: Option<real>)
  {
    x.Some? && x.value != 0.0
  }

  /** The schema: field limits plus the recurring-task refinement. */
  predicate ValidForm(v: FormValues)
  {
    1 <= |v.title| <= 100 &&
    |v.description| <= 500 &&
    (v.goalTarget.Some? ==> v.goalTarget.value > 0.0) &&
    (v.isRecurring ==> v.recurrence.Some? && v.goalType.Some? && Truthy(v.goalTarget))
  }

  predicate IsDigit(c: char)
  {
    '0' <= c <= '9'
  }

  function DigitChar(d: int): (c: char)
    requires 0 <= d < 10
    ensures IsDigit(c) && c as int - '0' as int == d
  {
    ('0' as int + d) as char
  }

  predicate AllDigits(s: string)
  {
    forall i | 0 <= i < |s| :: IsDigit(s[i])
  }

  /** The value of a decimal numeral. */
  function DigitsValue(s: string): nat
    requires AllDigits(s)
  {
    if s == [] then 0 else DigitsValue(s[..|s| - 1]) * 10 + (s[|s| - 1] as int - '0' as int)
  }

  /**
   * `Number(s)` on the strings a time field produces: surrounding white
   * space is ignored, the empty string is 0, a decimal numeral is its value,
   * and anything else is NaN (`None`).
   */
  function ParseNumber(s: string): (r: Option<int>)
    ensures r.Some? ==> r.value >= 0
    ensures Trim(s) == [] ==> r == Some(0)
  {
    var t := Trim(s);
    if t == [] then Some(0)
    else if AllDigits(t) then Some(DigitsValue(t))
    else None
  }

  /** `date.setHours(h)`: the same day and minute, hour `h` (rolling over outside 0..23). */
  function SetHours(t: Instant, h: int): Instant
  {
    t + (h - HourOf(t)) * HOUR_MS
  }

  /** `date.setMinutes(m)`: the same hour, minute `m` (rolling over outside 0..59). */
  function SetMinutes(t: Instant, m: int): Instant
  {
    t + (m - MinuteOf(t)) * MINUTE_MS
  }

  /**
   * `set(date, { hours, minutes })` with the two numbers of `dueTime.split(':')`:
   * NaN hours or minutes make the date invalid, and absent minutes are left alone.
   */
  function SetTime(t: Instant, hours: Option<int>, minutes: Option<Option<int>>): DueDate
  {
    if hours.None? then InvalidDate
    else
      var withHours := SetHours(t, hours.value);
      match minutes
      case None => DueAt(withHours)
      case Some(None) => InvalidDate
      case Some(Some(m)) => DueAt(SetMinutes(withHours, m))
  }

  /** The due date `handleSubmit` computes: the time is merged only when both fields are set. */
  function MergeDueTime(dueDate: Option<Instant>, dueTime: string): (r: DueDate)
    ensures dueDate.None? ==> r == NoDueDate
    ensures dueDate.Some? && dueTime == [] ==> r == DueAt(dueDate.value)
  {
    if dueDate.None? then NoDueDate
    else if dueTime == [] then DueAt(dueDate.value)
    else
      var parts := Split(dueTime, ':');
      SetTime(dueDate.value, ParseNumber(parts[0]), if |parts| >= 2 then Some(ParseNumber(parts[1])) else None)
  }

  /**
   * Setting an hour and a minute of the day keeps the day and the seconds,
   * and yields exactly that hour and minute.
   */
  lemma SetHoursMinutes(t: Instant, h: int, m: int)
    requires 0 <= h < 24 && 0 <= m < 60
    ensures var r := SetMinutes(SetHours(t, h), m);
            DayOf(r) == DayOf(t) && HourOf(r) == h && MinuteOf(r) == m && r % MINUTE_MS == t % MINUTE_MS
  {
    TimeOfDayOffset(t);
    var s := t % MINUTE_MS;
    var t1 := SetHours(t, h);
    assert t1 == StartOfDay(DayOf(t)) + h * HOUR_MS + MinuteOf(t) * MINUTE_MS + s;
    Compose(DayOf(t), h, MinuteOf(t), s);
    var r := SetMinutes(t1, m);
    assert r == StartOfDay(DayOf(t)) + h * HOUR_MS + m * MINUTE_MS + s;
    Compose(DayOf(t), h, m, s);
  }

  /** Two-digit zero-padded rendering of 0..99. */
  function Pad2(n: int): (r: string)
    requires 0 <= n < 100
    ensures |r| == 2 && AllDigits(r)
  {
    [DigitChar(n / 10), DigitChar(n % 10)]
  }

  /** `format(date, 'HH:mm')`. */
  function FormatHHmm(t: Instant): (r: string)
    ensures |r| == 5 && r[2] == ':'
  {
    Pad2(HourOf(t)) + [':'] + Pad2(MinuteOf(t))
  }

  lemma ParsePad2(n: int)
    requires 0 <= n < 100
    ensures ParseNumber(Pad2(n)) == Some(n)
  {
    var p := Pad2(n);
    assert !IsSpace(p[0]) && !IsSpace(p[1]);
    TrimOfTrimmed(p);
    assert p[..1] == [p[0]];
    assert p[..1][..0] == [];
    assert DigitsValue(p[..1]) == n / 10;
    assert DigitsValue(p) == (n / 10) * 10 + n % 10;
  }

  /** Merging a typed `HH:mm` is setting that hour, then that minute. */
  lemma MergeHHmm(t: Instant, h: int, m: int)
    requires 0 <= h < 24 && 0 <= m < 60
    ensures MergeDueTime(Some(t), Pad2(h) + [':'] + Pad2(m)) == DueAt(SetMinutes(SetHours(t, h), m))
  {
    var hh, mm := Pad2(h), Pad2(m);
    assert ':' !in hh && ':' !in mm;
    SplitHead(hh, ':', mm);
    assert IndexOf(mm, ':') == |mm|;
    assert Split(hh + [':'] + mm, ':') == [hh, mm];
    ParsePad2(h);
    ParsePad2(m);
  }

  /** The time `resetForm` shows, merged back into the date, gives the date back. */
  lemma MergeFormattedTime(t: Instant)
    ensures MergeDueTime(Some(t), FormatHHmm(t)) == DueAt(t)
  {
    var h, m := HourOf(t), MinuteOf(t);
    MergeHHmm(t, h, m);
    SetHoursMinutes(t, h, m);
    var r := SetMinutes(SetHours(t, h), m);
    TimeOfDayOffset(t);
    TimeOfDayOffset(r);
  }

  /** A typed `HH:mm` time lands the date on that hour and minute of the same day. */
  lemma MergeTypedTime(t: Instant, h: int, m: int)
    requires 0 <= h < 24 && 0 <= m < 60
    ensures var r := MergeDueTime(Some(t), Pad2(h) + [':'] + Pad2(m));
            r.DueAt? && DayOf(r.instant) == DayOf(t) && HourOf(r.instant) == h && MinuteOf(r.instant) == m
  {
    MergeHHmm(t, h, m);
    SetHoursMinutes(t, h, m);
  }

  /** `filter(Boolean)` on strings. */
  function DropEmpty(parts: seq<string>): (r: seq<string>)
    ensures |r| <= |parts|
    ensures forall i | 0 <= i < |r| :: r[i] != [] && r[i] in parts
  {
    if parts == [] then []
    else
      var rest := DropEmpty(parts[1..]);
      if parts[0] == [] then rest else [parts[0]] + rest
  }

  lemma {:induction false} DropEmptyNone(parts: seq<string>)
    requires forall i | 0 <= i < |parts| :: parts[i] != []
    ensures DropEmpty(parts) == parts
  {
    if parts != [] {
      DropEmptyNone(parts[1..]);
    }
  }

  /** The tags field: comma-separated, each piece trimmed, empty pieces dropped. */
  function ParseTags(field: string): (r: seq<string>)
    ensures forall i | 0 <= i < |r| :: r[i] != [] && IsTrimmed(r[i]) && ',' !in r[i]
  {
    if field == [] then []
    else
      var pieces := TrimAll(Split(field, ','));
      var r := DropEmpty(pieces);
      assert forall i | 0 <= i < |r| :: IsTrimmed(r[i]) && ',' !in r[i] by {
        forall i | 0 <= i < |r| ensures IsTrimmed(r[i]) && ',' !in r[i] {
          var k :| 0 <= k < |pieces| && pieces[k] == r[i];
          TrimKeepsOut(Split(field, ',')[k], ',');
        }
      }
      r
  }

  /** Trimming only removes characters. */
  lemma TrimKeepsOut(s: string, c: char)
    requires c !in s
    ensures c !in Trim(s)
  {
    var a := TrimStart(s);
    assert forall i | 0 <= i < |a| :: a[i] == s[LeadingSpace(s) + i];
    assert forall i | 0 <= i < |TrimEnd(a)| :: TrimEnd(a)[i] == a[i];
  }

  lemma {:induction false} JoinStartsWith(parts: seq<string>, sep: string)
    requires parts != []
    ensures |Join(parts, sep)| >= |parts[0]|
  {
  }

  /** Names joined with `", "` parse back to the same names, when they are non-empty, trimmed and comma-free. */
  lemma ParseJoinedTags(names: seq<string>)
    requires forall i | 0 <= i < |names| :: names[i] != [] && IsTrimmed(names[i]) && ',' !in names[i]
    ensures ParseTags(Join(names, ", ")) == names
  {
    if names != [] {
      JoinStartsWith(names, ", ");
      assert IsSpace(' ');
      SplitJoinTrim(names, ',', ' ');
      DropEmptyNone(names);
    }
  }

  /** `handleSubmit`: the data passed on from validated form values. */
  function Submit(v: FormValues): Submission
  {
    Submission(
      v.title,
      if v.description == [] then None else Some(v.description),
      v.projectId,
      MergeDueTime(v.dueDate, v.dueTime),
      ParseTags(v.tags),
      if v.isRecurring then v.recurrence else None,
      if v.isRecurring && v.goalType.Some? && Truthy(v.goalTarget) then
        Some(Goal(v.goalType.value, v.goalTarget.value, if v.goalUnit == [] then None else Some(v.goalUnit)))
      else None)
  }

  /**
   * A valid form submits a recurrence and a goal exactly when it is
   * recurring, and a submitted goal has a positive target and no empty unit.
   */
  lemma ValidSubmission(v: FormValues)
    requires ValidForm(v)
    ensures Submit(v).recurrence.Some? <==> v.isRecurring
    ensures Submit(v).goal.Some? <==> v.isRecurring
    ensures Submit(v).goal.Some? ==> Submit(v).goal.value.target > 0.0 && Submit(v).goal.value.unit != Some([])
    ensures !v.isRecurring ==> Submit(v).recurrence == None && Submit(v).goal == None
  {
  }

  function TagNames(tags: seq<Tag>): (r: seq<string>)
    ensures |r| == |tags| && forall i | 0 <= i < |tags| :: r[i] == tags[i].name
  {
    if tags == [] then [] else [tags[0].name] + TagNames(tags[1..])
  }

  /** The form values for a new task. */
  function Defaults(projectId: Option<Id>): FormValues
  {
    FormValues([], [], projectId, None, [], [], false, None, None, None, [])
  }

  /** `resetForm(task)`: the values loaded for editing `task`, or the defaults for a new task. */
  function ResetValues(task: Option<Task>, defaultProjectId: Option<Id>, projects: seq<Project>): (v: FormValues)
    ensures task.Some? ==> v.isRecurring == task.value.recurrence.Some?
    ensures task.None? ==> !v.isRecurring && v.title == [] && v.tags == []
  {
    match task
    case None =>
      Defaults(if defaultProjectId.Some? then defaultProjectId else if projects != [] then Some(projects[0].id) else None)
    case Some(t) =>
      FormValues(
        t.title,
        t.description.GetOr([]),
        Some(t.projectId),
        t.dueDate,
        if t.dueDate.Some? then FormatHHmm(t.dueDate.value) else [],
        Join(TagNames(t.tags), ", "),
        t.recurrence.Some?,
        t.recurrence,
        if t.goal.Some? then Some(t.goal.value.kind) else None,
        if t.goal.Some? && t.goal.value.target != 0.0 then Some(t.goal.value.target) else None,
        if t.goal.Some? && t.goal.value.unit.Some? then t.goal.value.unit.value else [])
  }

  /** Tags whose names the form can show and read back unchanged. */
  predicate PrintableTags(tags: seq<Tag>)
  {
    forall i | 0 <= i < |tags| :: tags[i].name != [] && IsTrimmed(tags[i].name) && ',' !in tags[i].name
  }

  /**
   * Loading a task into the form and submitting it unchanged gives back the
   * task's title, description, due date, tag names and recurrence, and its
   * goal when it is recurring with a non-zero target and a non-empty unit.
   */
  lemma ResetThenSubmit(t: Task, defaultProjectId: Option<Id>, projects: seq<Project>)
    requires PrintableTags(t.tags) && t.description != Some([])
    ensures var s := Submit(ResetValues(Some(t), defaultProjectId, projects));
            s.title == t.title && s.description == t.description && s.projectId == Some(t.projectId) &&
            s.dueDate == (if t.dueDate.Some? then DueAt(t.dueDate.value) else NoDueDate) &&
            s.tags == TagNames(t.tags) && s.recurrence == t.recurrence &&
            (t.recurrence.Some? && t.goal.Some? && t.goal.value.target != 0.0 && t.goal.value.unit != Some([]) ==>
               s.goal == t.goal)
  {
    var v := ResetValues(Some(t), defaultProjectId, projects);
    var s := Submit(v);
    assert s.tags == TagNames(t.tags) by {
      assert v.tags == Join(TagNames(t.tags), ", ");
      ParseJoinedTags(TagNames(t.tags));
    }
    assert s.dueDate == (if t.dueDate.Some? then DueAt(t.dueDate.value) else NoDueDate) by {
      if t.dueDate.Some? {
        assert v.dueTime == FormatHHmm(t.dueDate.value);
        MergeFormattedTime(t.dueDate.value);
      }
    }
  }

  /** The form, holding its current values. */
  class TaskForm {
    var values: FormValues

    /** Mounting with the defaults; the recurring effect's first run changes nothing. */
    constructor (defaultProjectId: Option<Id>)
      ensures values == Defaults(defaultProjectId)
    {
      values := Defaults(defaultProjectId);
    }

    /**
     * The effect on `isRecurring`: off clears the recurrence and goal
     * fields, on clears the due date and time.
     */
    method RecurringChanged()
      modifies this
      ensures !old(values).isRecurring ==>
                values == old(values).(recurrence := None, goalType := None, goalTarget := None, goalUnit := [])
      ensures old(values).isRecurring ==> values == old(values).(dueDate := None, dueTime := [])
    {
      if !values.isRecurring {
        values := values.(recurrence := None);
        values := values.(goalType := None);
        values := values.(goalTarget := None);
        values := values.(goalUnit := []);
      } else {
        values := values.(dueDate := None);
        values := values.(dueTime := []);
      }
    }

    /** Flipping the recurring switch, followed by the effect when the value changed. */
    method SetRecurring(on: bool)
      modifies this
      ensures values.isRecurring == on
      ensures old(values).isRecurring == on ==> values == old(values)
      ensures old(values).isRecurring != on && !on ==>
                values == old(values).(isRecurring := false, recurrence := None, goalType := None, goalTarget := None, goalUnit := [])
      ensures old(values).isRecurring != on && on ==>
                values == old(values).(isRecurring := true, dueDate := None, dueTime := [])
    {
      var previous := values.isRecurring;
      values := values.(isRecurring := on);
      if previous != on {
        RecurringChanged();
      }
    }

    /**
     * Opening the dialog: `resetForm(task)`, followed by the effect when the
     * recurring switch changed.
     */
    method Open(task: Option<Task>, defaultProjectId: Option<Id>, projects: seq<Project>)
      modifies this
      ensures var loaded := ResetValues(task, defaultProjectId, projects);
              values.isRecurring == loaded.isRecurring &&
              (old(values).isRecurring == loaded.isRecurring ==> values == loaded) &&
              (old(values).isRecurring != loaded.isRecurring && !loaded.isRecurring ==>
                 values == loaded.(recurrence := None, goalType := None, goalTarget := None, goalUnit := [])) &&
              (old(values).isRecurring != loaded.isRecurring && loaded.isRecurring ==>
                 values == loaded.(dueDate := None, dueTime := []))
    {
      var previous := values.isRecurring;
      values := ResetValues(task, defaultProjectId, projects);
      if values.isRecurring != previous {
        RecurringChanged();
      }
    }

    /** The form's submit: `handleSubmit` runs only on values the schema accepts. */
    method SubmitForm() returns (r: Option<Submission>)
      ensures r.Some? <==> ValidForm(values)
      ensures r.Some? ==> r.value == Submit(values)
    {
      if ValidForm(values) {
        r := Some(Submit(values));
      } else {
        r := None;
      }
    }
  }

  /**
   * Once the recurring switch is off and the effect has run, a submission
   * carries neither recurrence nor goal, whatever the form held before.
   */
  lemma SwitchedOffSubmitsNoGoal(v: FormValues)
    requires v.isRecurring
    ensures var off := v.(isRecurring := false, recurrence := None, goalType := None, goalTarget := None, goalUnit := []);
            Submit(off).recurrence == None && Submit(off).goal == None && Submit(off).dueDate == MergeDueTime(v.dueDate, v.dueTime)
  {
  }

  /** Once the switch is on and the effect has run, a submission carries no due date. */
  lemma SwitchedOnSubmitsNoDueDate(v: FormValues)
    requires !v.isRecurring
    ensures Submit(v.(isRecurring := true, dueDate := None, dueTime := [])).dueDate == NoDueDate
  {
  }
}
