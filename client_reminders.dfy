/**
 * The older in-browser reminder component: every minute, while the task
 * list is loaded, it scans the tasks at `now` and sends due-soon (within the
 * hour before a deadline), overdue and daily-nudge reminders, suppressed and
 * recorded by a set of keys held in a ref.
 *
 * Unlike the scheduled endpoint, every key carries the calendar day of
 * `now`, not of the deadline: an overdue task is reminded again each day,
 * and a due-soon hour that spans midnight is reminded twice.
 */
module ClientReminders {
  import opened Types
  import opened Dedup
  import Seqs
  import CronReminders

  /** Remind one hour before the deadline. */
  const REMINDER_WINDOW_HOURS: int := 1

  datatype ReminderKind = DueSoon | Overdue | Recurring

  /** `${id}-${yyyy-MM-dd of now}-due-soon`, `-overdue` and `-recurring`. */
  datatype ClientKey = ClientKey(taskId: Id, day: Day, kind: ReminderKind)

  datatype ClientMessage =
    | DueAt(title: string, due: Instant)
    | OverdueOn(title: string, due: Instant)
    | LogToday(title: string)

  type ClientReminder = Dispatch<ClientKey, ClientMessage>

  /** `isAfter(now, subHours(due, 1)) && isBefore(now, due)`. */
  predicate DueWithinHour(due: Instant, now: Instant)
  {
    due - REMINDER_WINDOW_HOURS * HOUR_MS < now < due
  }

  function DeadlineCandidates(t: Task, now: Instant): seq<ClientReminder>
  {
    if !CronReminders.IsDeadlineTask(t) then []
    else
      var due := t.dueDate.value;
      (if DueWithinHour(due, now) then [Dispatch(ClientKey(t.id, DayOf(now), DueSoon), DueAt(t.title, due))] else []) +
      (if now > due then [Dispatch(ClientKey(t.id, DayOf(now), Overdue), OverdueOn(t.title, due))] else [])
  }

  /** The nudge rule is the scheduled endpoint's: daily task, nothing logged today, 19:00 or later. */
  function RecurringCandidates(t: Task, now: Instant): seq<ClientReminder>
  {
    if CronReminders.NudgeDue(t, now) then [Dispatch(ClientKey(t.id, DayOf(now), Recurring), LogToday(t.title))] else []
  }

  function TaskCandidates(t: Task, now: Instant): seq<ClientReminder>
  {
    if t.completed then [] else DeadlineCandidates(t, now) + RecurringCandidates(t, now)
  }

  function Candidates(tasks: seq<Task>, now: Instant): seq<ClientReminder>
  {
    if tasks == [] then []
    else Candidates(tasks[..|tasks| - 1], now) + TaskCandidates(tasks[|tasks| - 1], now)
  }

  /** The candidates of a prefix grow by the next task's candidates; a completed task adds none. */
  lemma CandidatesStep(tasks: seq<Task>, i: nat, now: Instant)
    requires i < |tasks|
    ensures Candidates(tasks[..i + 1], now) == Candidates(tasks[..i], now) + TaskCandidates(tasks[i], now)
    ensures tasks[i].completed ==> Candidates(tasks[..i + 1], now) == Candidates(tasks[..i], now)
  {
    assert tasks[..i + 1][..i] == tasks[..i];
  }

  /** One scan: what is sent, and the key record afterwards. */
  function Pass(tasks: seq<Task>, now: Instant, sent: set<ClientKey>): Outcome<ClientKey, ClientMessage>
  {
    Fire(Candidates(tasks, now), sent)
  }

  /** The rule table, key by key. */
  ghost predicate ReminderDue(t: Task, now: Instant, k: ClientKey)
  {
    k.taskId == t.id && k.day == DayOf(now) && !t.completed &&
    match k.kind
    case DueSoon => CronReminders.IsDeadlineTask(t) && DueWithinHour(t.dueDate.value, now)
    case Overdue => CronReminders.IsDeadlineTask(t) && now > t.dueDate.value
    case Recurring => CronReminders.NudgeDue(t, now)
  }

  lemma TaskCandidateKeys(t: Task, now: Instant, k: ClientKey)
    ensures k in KeySet(TaskCandidates(t, now)) <==> ReminderDue(t, now, k)
  {
    if !t.completed {
      var rec := RecurringCandidates(t, now);
      assert KeySet(rec) == if CronReminders.NudgeDue(t, now) then {ClientKey(t.id, DayOf(now), Recurring)} else {};
      KeySetAppend(DeadlineCandidates(t, now), rec);
      if CronReminders.IsDeadlineTask(t) {
        var due := t.dueDate.value;
        var ds := if DueWithinHour(due, now) then [Dispatch(ClientKey(t.id, DayOf(now), DueSoon), DueAt(t.title, due))] else [];
        var ov := if now > due then [Dispatch(ClientKey(t.id, DayOf(now), Overdue), OverdueOn(t.title, due))] else [];
        assert KeySet(ds) == if DueWithinHour(due, now) then {ClientKey(t.id, DayOf(now), DueSoon)} else {};
        assert KeySet(ov) == if now > due then {ClientKey(t.id, DayOf(now), Overdue)} else {};
        KeySetAppend(ds, ov);
      } else {
        assert KeySet(DeadlineCandidates(t, now)) == {};
      }
    } else {
      assert KeySet(TaskCandidates(t, now)) == {};
    }
  }

  lemma {:induction false} CandidateKeys(tasks: seq<Task>, now: Instant, k: ClientKey)
    ensures k in KeySet(Candidates(tasks, now)) <==> exists i | 0 <= i < |tasks| :: ReminderDue(tasks[i], now, k)
    decreases |tasks|
  {
    if tasks != [] {
      var init, t := tasks[..|tasks| - 1], tasks[|tasks| - 1];
      CandidateKeys(init, now, k);
      KeySetAppend(Candidates(init, now), TaskCandidates(t, now));
      TaskCandidateKeys(t, now, k);
      Seqs.ExistsSnoc(tasks, init, (x: Task) => ReminderDue(x, now, k));
    }
  }

  /** A key is sent iff some task's rules call for it and it is new; the record gains every key called for. */
  lemma PassSends(tasks: seq<Task>, now: Instant, sent: set<ClientKey>, k: ClientKey)
    ensures k in FiredKeys(Pass(tasks, now, sent)) <==>
              k !in sent && exists i | 0 <= i < |tasks| :: ReminderDue(tasks[i], now, k)
    ensures k in Pass(tasks, now, sent).sent <==>
              k in sent || exists i | 0 <= i < |tasks| :: ReminderDue(tasks[i], now, k)
  {
    FiredKeysExactly(Candidates(tasks, now), sent);
    FireRecords(Candidates(tasks, now), sent);
    CandidateKeys(tasks, now, k);
  }

  /** With distinct ids, the keys of task `i` follow that task's rules alone; a completed task gets nothing. */
  lemma PassSendsForTask(tasks: seq<Task>, now: Instant, sent: set<ClientKey>, i: int, k: ClientKey)
    requires UniqueIds(tasks) && 0 <= i < |tasks| && k.taskId == tasks[i].id
    ensures k in FiredKeys(Pass(tasks, now, sent)) <==> k !in sent && ReminderDue(tasks[i], now, k)
    ensures k in Pass(tasks, now, sent).sent <==> k in sent || ReminderDue(tasks[i], now, k)
    ensures tasks[i].completed ==> k !in FiredKeys(Pass(tasks, now, sent)) && (k in Pass(tasks, now, sent).sent <==> k in sent)
  {
    PassSends(tasks, now, sent, k);
  }

  /** Every key sent in a scan is stamped with the day of `now`. */
  lemma KeysCarryToday(tasks: seq<Task>, now: Instant, sent: set<ClientKey>, k: ClientKey)
    requires k in FiredKeys(Pass(tasks, now, sent))
    ensures k.day == DayOf(now)
  {
    PassSends(tasks, now, sent, k);
  }

  /** A second scan with the same `now` and tasks sends nothing. */
  lemma SecondPassSendsNothing(tasks: seq<Task>, now: Instant, sent: set<ClientKey>)
    ensures Pass(tasks, now, Pass(tasks, now, sent).sent).fired == []
  {
    SecondPassSilent(Candidates(tasks, now), sent);
  }

  /**
   * Overdue is reminded once per calendar day: a scan later on the same day
   * does not repeat it, while a scan on a later day, with a record holding
   * only keys of earlier days, sends it again.
   */
  lemma OverdueOncePerDay(tasks: seq<Task>, i: int, now1: Instant, now2: Instant, sent: set<ClientKey>)
    requires UniqueIds(tasks) && 0 <= i < |tasks| && !tasks[i].completed && CronReminders.IsDeadlineTask(tasks[i])
    requires tasks[i].dueDate.value < now1 <= now2
    requires forall k | k in sent :: k.day < DayOf(now1)
    ensures var k1 := ClientKey(tasks[i].id, DayOf(now1), Overdue);
            k1 in FiredKeys(Pass(tasks, now1, sent)) &&
            (DayOf(now2) == DayOf(now1) ==> k1 !in FiredKeys(Pass(tasks, now2, Pass(tasks, now1, sent).sent)))
    ensures DayOf(now2) != DayOf(now1) ==>
              ClientKey(tasks[i].id, DayOf(now2), Overdue) in FiredKeys(Pass(tasks, now2, Pass(tasks, now1, sent).sent))
  {
    var k1, k2 := ClientKey(tasks[i].id, DayOf(now1), Overdue), ClientKey(tasks[i].id, DayOf(now2), Overdue);
    var s1 := Pass(tasks, now1, sent).sent;
    PassSendsForTask(tasks, now1, sent, i, k1);
    PassSendsForTask(tasks, now1, sent, i, k2);
    PassSendsForTask(tasks, now2, s1, i, k1);
    PassSendsForTask(tasks, now2, s1, i, k2);
    DayOfMonotone(now1, now2);
  }

  /**
   * The due-soon key is stamped with the day of `now`, so a deadline at
   * 00:30 is reminded at 23:45 the evening before and again at 00:10.
   */
  lemma DueSoonAcrossMidnight(tasks: seq<Task>, i: int, d: Day)
    requires UniqueIds(tasks) && 0 <= i < |tasks| && !tasks[i].completed && CronReminders.IsDeadlineTask(tasks[i])
    requires tasks[i].dueDate.value == StartOfDay(d + 1) + 30 * MINUTE_MS
    ensures var now1, now2 := StartOfDay(d) + 23 * HOUR_MS + 45 * MINUTE_MS, StartOfDay(d + 1) + 10 * MINUTE_MS;
            var p1 := Pass(tasks, now1, {});
            var p2 := Pass(tasks, now2, p1.sent);
            ClientKey(tasks[i].id, d, DueSoon) in FiredKeys(p1) &&
            ClientKey(tasks[i].id, d + 1, DueSoon) in FiredKeys(p2)
  {
    var now1, now2 := StartOfDay(d) + 23 * HOUR_MS + 45 * MINUTE_MS, StartOfDay(d + 1) + 10 * MINUTE_MS;
    assert DayOf(now1) == d;
    assert DayOf(now2) == d + 1;
    var k1, k2 := ClientKey(tasks[i].id, d, DueSoon), ClientKey(tasks[i].id, d + 1, DueSoon);
    PassSendsForTask(tasks, now1, {}, i, k1);
    PassSendsForTask(tasks, now1, {}, i, k2);
    PassSendsForTask(tasks, now2, Pass(tasks, now1, {}).sent, i, k2);
  }

  /** The component with the key record held in its ref. */
  class ReminderSystem {
    const sentReminders: Ledger<ClientKey, ClientMessage>

    constructor ()
      ensures fresh(sentReminders) && sentReminders.sent == {}
    {
      sentReminders := new Ledger();
    }

    /** `checkReminders`: nothing while loading or without tasks, otherwise one scan at `now`. */
    method CheckReminders(loading: bool, tasks: Option<seq<Task>>, now: Instant, channel: Channel<ClientMessage>)
      modifies sentReminders, channel
      ensures loading || tasks.None? ==>
                sentReminders.sent == old(sentReminders.sent) && channel.outbox == old(channel.outbox)
      ensures !loading && tasks.Some? ==>
                var o := Pass(tasks.value, now, old(sentReminders.sent));
                sentReminders.sent == o.sent && channel.outbox == old(channel.outbox) + Messages(o.fired)
    {
      if loading || tasks.None? {
        return;
      }
      ScanAll(tasks.value, now, channel);
    }

    /** The loop over the tasks. */
    method ScanAll(tasks: seq<Task>, now: Instant, channel: Channel<ClientMessage>)
      modifies sentReminders, channel
      ensures sentReminders.After(Candidates(tasks, now), old(sentReminders.sent), old(channel.outbox), channel)
    {
      ghost var sent0, outbox0 := sentReminders.sent, channel.outbox;
      var i := 0;
      while i < |tasks|
        invariant 0 <= i <= |tasks|
        invariant sentReminders.After(Candidates(tasks[..i], now), sent0, outbox0, channel)
      {
        CandidatesStep(tasks, i, now);
        if !tasks[i].completed {
          ScanTask(tasks[i], now, channel, Candidates(tasks[..i], now), sent0, outbox0);
        }
        i := i + 1;
      }
      assert tasks[..|tasks|] == tasks;
    }

    /** The checks for one task that is not completed. */
    method ScanTask(task: Task, now: Instant, channel: Channel<ClientMessage>,
                    ghost done: seq<ClientReminder>, ghost sent0: set<ClientKey>, ghost outbox0: seq<ClientMessage>)
      requires !task.completed
      requires sentReminders.After(done, sent0, outbox0, channel)
      modifies sentReminders, channel
      ensures sentReminders.After(done + TaskCandidates(task, now), sent0, outbox0, channel)
    {
      ghost var dl, rc := DeadlineCandidates(task, now), RecurringCandidates(task, now);
      ScanDeadline(task, now, channel, done, sent0, outbox0);
      ScanRecurring(task, now, channel, done + dl, sent0, outbox0);
      assert (done + dl) + rc == done + TaskCandidates(task, now) by {
        assert TaskCandidates(task, now) == dl + rc;
      }
    }

    /** The due-soon and overdue checks, for a task with a due date and no recurrence. */
    method ScanDeadline(task: Task, now: Instant, channel: Channel<ClientMessage>,
                        ghost done: seq<ClientReminder>, ghost sent0: set<ClientKey>, ghost outbox0: seq<ClientMessage>)
      requires sentReminders.After(done, sent0, outbox0, channel)
      modifies sentReminders, channel
      ensures sentReminders.After(done + DeadlineCandidates(task, now), sent0, outbox0, channel)
    {
      var today := DayOf(now);
      ghost var considered := done;
      if task.dueDate.Some? && task.recurrence.None? {
        var dueDate := task.dueDate.value;
        var dueSoon := Dispatch(ClientKey(task.id, today, DueSoon), DueAt(task.title, dueDate));
        if now > dueDate - REMINDER_WINDOW_HOURS * HOUR_MS && now < dueDate {
          sentReminders.Consider(dueSoon, channel, considered, sent0, outbox0);
          considered := considered + [dueSoon];
        }
        var overdue := Dispatch(ClientKey(task.id, today, Overdue), OverdueOn(task.title, dueDate));
        if now > dueDate {
          sentReminders.Consider(overdue, channel, considered, sent0, outbox0);
          considered := considered + [overdue];
        }
      }
      assert considered == done + DeadlineCandidates(task, now);
    }

    /** The daily nudge check. */
    method ScanRecurring(task: Task, now: Instant, channel: Channel<ClientMessage>,
                         ghost done: seq<ClientReminder>, ghost sent0: set<ClientKey>, ghost outbox0: seq<ClientMessage>)
      requires sentReminders.After(done, sent0, outbox0, channel)
      modifies sentReminders, channel
      ensures sentReminders.After(done + RecurringCandidates(task, now), sent0, outbox0, channel)
    {
      var today := DayOf(now);
      if task.recurrence == Some(Daily) {
        var recurring := Dispatch(ClientKey(task.id, today, Recurring), LogToday(task.title));
        if !HasLogOn(task.progress, today) && HourOf(now) >= CronReminders.RECURRING_REMINDER_HOUR {
          sentReminders.Consider(recurring, channel, done, sent0, outbox0);
          return;
        }
      }
      assert done + RecurringCandidates(task, now) == done;
    }
  }
}
