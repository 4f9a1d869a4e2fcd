/**
 * The scheduled reminder endpoint (`POST /api/cron/reminders`).
 *
 * Each authorised call scans every task at instant `now` and, for every
 * task that is not completed, decides which of four reminders to send:
 * due-soon (the day before a deadline, but not on the deadline's own day),
 * imminent (30 and 10 minutes before a deadline), overdue (once the deadline
 * has passed) and the daily recurring nudge (no progress logged today and it
 * is 19:00 or later). A module-level set of keys, kept across calls,
 * suppresses and records the sends.
 *
 * `Candidates` lists what the rules ask for, `Pass` is what one call sends,
 * `ReminderDue` is the rule table stated key by key, and
 * `ReminderRoute.Post` is the handler itself, proved to do what `Pass` says.
 */
module CronReminders {
  import opened Types
  import opened Dedup
  import Seqs

  const RECURRING_REMINDER_HOUR: int := 19
  const REMINDER_WINDOW_DAYS: int := 1
  const IMMINENT_WINDOWS: seq<int> := [30, 10]
  /** Width in minutes of each imminent band (the cron cadence). */
  const IMMINENT_BAND: int := 5

  /** `format(dueDate, 'yyyy-MM-dd-HH')`. */
  datatype HourStamp = HourStamp(day: Day, hour: int)

  function HourStampOf(t: Instant): HourStamp
  {
    HourStamp(DayOf(t), HourOf(t))
  }

  /**
   * The dedup keys, one constructor per string template:
   * `id-due-soon-yyyy-MM-dd`, `id-imminent-W-yyyy-MM-dd-HH`,
   * `id-overdue-yyyy-MM-dd` and `id-recurring-yyyy-MM-dd`.
   */
  datatype ReminderKey =
    | DueSoonKey(taskId: Id, dueDay: Day)
    | ImminentKey(taskId: Id, window: int, dueHour: HourStamp)
    | OverdueKey(taskId: Id, dueDay: Day)
    | RecurringKey(taskId: Id, today: Day)

  /** The four message texts, by their parameters. */
  datatype Message =
    | DueTomorrow(title: string, due: Instant)
    | DueInMinutes(window: int, title: string)
    | OverdueSince(title: string, due: Instant)
    | DailyNudge(title: string)

  type Reminder = Dispatch<ReminderKey, Message>

  /** 401, the JSON success reply, and the 500 reply carrying the error message. */
  datatype Response = Unauthorized | Checked | Failed(error: string)

  /** `Bearer ${process.env.CRON_SECRET}`: an unset secret renders as `undefined`. */
  function ExpectedAuthorization(cronSecret: Option<string>): string
  {
    "Bearer " + cronSecret.GetOr("undefined")
  }

  /** `differenceInMinutes(due, now)`: whole minutes, truncated toward zero. */
  function MinutesUntil(due: Instant, now: Instant): int
  {
    var d := due - now;
    if d >= 0 then d / MINUTE_MS else -((-d) / MINUTE_MS)
  }

  /** Deadline rules apply to tasks with a due date and no recurrence. */
  predicate IsDeadlineTask(t: Task)
  {
    t.dueDate.Some? && t.recurrence.None?
  }

  /** After `due - 1 day`, before `due`, and not on the due date's own day. */
  predicate DueSoonWindow(due: Instant, now: Instant)
  {
    due - REMINDER_WINDOW_DAYS * DAY_MS < now < due && DayOf(now) != DayOf(due)
  }

  /** `minutesUntilDue <= window && minutesUntilDue > window - 5`. */
  predicate InImminentBand(minutes: int, window: int)
  {
    minutes <= window && minutes > window - IMMINENT_BAND
  }

  /** A daily task with no progress dated today, at 19:00 or later. */
  predicate NudgeDue(t: Task, now: Instant)
  {
    t.recurrence == Some(Daily) && !HasLogOn(t.progress, DayOf(now)) && HourOf(now) >= RECURRING_REMINDER_HOUR
  }

  function DueSoonCandidates(t: Task, now: Instant): seq<Reminder>
    requires IsDeadlineTask(t)
  {
    var due := t.dueDate.value;
    if DueSoonWindow(due, now) then [Dispatch(DueSoonKey(t.id, DayOf(due)), DueTomorrow(t.title, due))] else []
  }

  /** The imminent reminders for the given windows, in window order. */
  function ImminentCandidates(t: Task, now: Instant, windows: seq<int>): seq<Reminder>
    requires IsDeadlineTask(t)
  {
    if windows == [] then []
    else
      var due, w := t.dueDate.value, windows[|windows| - 1];
      ImminentCandidates(t, now, windows[..|windows| - 1]) +
      (if InImminentBand(MinutesUntil(due, now), w)
       then [Dispatch(ImminentKey(t.id, w, HourStampOf(due)), DueInMinutes(w, t.title))]
       else [])
  }

  function OverdueCandidates(t: Task, now: Instant): seq<Reminder>
    requires IsDeadlineTask(t)
  {
    var due := t.dueDate.value;
    if now > due then [Dispatch(OverdueKey(t.id, DayOf(due)), OverdueSince(t.title, due))] else []
  }

  function DeadlineCandidates(t: Task, now: Instant): seq<Reminder>
  {
    if !IsDeadlineTask(t) then []
    else
      DueSoonCandidates(t, now) +
      (if MinutesUntil(t.dueDate.value, now) > 0 then ImminentCandidates(t, now, IMMINENT_WINDOWS) else []) +
      OverdueCandidates(t, now)
  }

  function RecurringCandidates(t: Task, now: Instant): seq<Reminder>
  {
    if NudgeDue(t, now) then [Dispatch(RecurringKey(t.id, DayOf(now)), DailyNudge(t.title))] else []
  }

  /** The reminders the rules ask for one task, in the order the handler considers them. */
  function TaskCandidates(t: Task, now: Instant): seq<Reminder>
  {
    if t.completed then [] else DeadlineCandidates(t, now) + RecurringCandidates(t, now)
  }

  /** The reminders the rules ask for, task by task. */
  function Candidates(tasks: seq<Task>, now: Instant): seq<Reminder>
  {
    if tasks == [] then []
    else Candidates(tasks[..|tasks| - 1], now) + TaskCandidates(tasks[|tasks| - 1], now)
  }

  /** The candidates of a prefix grow by the next task's candidates; a completed task adds none. */
  lemma CandidatesStep(tasks: seq<Task>, i: nat, now: Instant)
    requires i < |tasks|
    ensures Candidates(tasks[..i + 1], now) == Candidates(tasks[..i], now) + TaskCandidates(tasks[i], now)
    ensures tasks[i].completed ==> Candidates(tasks[..i + 1], now) == Candidates(tasks[..i], now)
  {
    assert tasks[..i + 1][..i] == tasks[..i];
  }

  /** One authorised call: what is sent, and the key record afterwards. */
  function Pass(tasks: seq<Task>, now: Instant, sent: set<ReminderKey>): Outcome<ReminderKey, Message>
  {
    Fire(Candidates(tasks, now), sent)
  }

  /** The rule table, key by key: task `t` calls for reminder key `k` at `now`. */
  ghost predicate ReminderDue(t: Task, now: Instant, k: ReminderKey)
  {
    k.taskId == t.id && !t.completed &&
    match k
    case DueSoonKey(_, day) =>
      IsDeadlineTask(t) && day == DayOf(t.dueDate.value) && DueSoonWindow(t.dueDate.value, now)
    case ImminentKey(_, w, stamp) =>
      IsDeadlineTask(t) && w in IMMINENT_WINDOWS && stamp == HourStampOf(t.dueDate.value) &&
      MinutesUntil(t.dueDate.value, now) > 0 && InImminentBand(MinutesUntil(t.dueDate.value, now), w)
    case OverdueKey(_, day) =>
      IsDeadlineTask(t) && day == DayOf(t.dueDate.value) && now > t.dueDate.value
    case RecurringKey(_, day) =>
      day == DayOf(now) && NudgeDue(t, now)
  }

  lemma {:induction false} ImminentKeys(t: Task, now: Instant, windows: seq<int>, k: ReminderKey)
    requires IsDeadlineTask(t)
    ensures k in KeySet(ImminentCandidates(t, now, windows)) <==>
              k.ImminentKey? && k.taskId == t.id && k.window in windows &&
              k.dueHour == HourStampOf(t.dueDate.value) &&
              InImminentBand(MinutesUntil(t.dueDate.value, now), k.window)
    decreases |windows|
  {
    if windows != [] {
      var init, w := windows[..|windows| - 1], windows[|windows| - 1];
      ImminentKeys(t, now, init, k);
      var last := if InImminentBand(MinutesUntil(t.dueDate.value, now), w)
                  then [Dispatch(ImminentKey(t.id, w, HourStampOf(t.dueDate.value)), DueInMinutes(w, t.title))]
                  else [];
      KeySetAppend(ImminentCandidates(t, now, init), last);
      assert windows == init + [w];
      if last != [] {
        assert KeySet(last) == {ImminentKey(t.id, w, HourStampOf(t.dueDate.value))};
      } else {
        assert KeySet(last) == {};
      }
    }
  }

  /** The candidates of one task carry exactly the keys the rule table calls for. */
  lemma TaskCandidateKeys(t: Task, now: Instant, k: ReminderKey)
    ensures k in KeySet(TaskCandidates(t, now)) <==> ReminderDue(t, now, k)
  {
    if !t.completed {
      var rec := RecurringCandidates(t, now);
      assert KeySet(rec) == if NudgeDue(t, now) then {RecurringKey(t.id, DayOf(now))} else {};
      KeySetAppend(DeadlineCandidates(t, now), rec);
      if IsDeadlineTask(t) {
        var due := t.dueDate.value;
        var ds, ov := DueSoonCandidates(t, now), OverdueCandidates(t, now);
        var im := if MinutesUntil(due, now) > 0 then ImminentCandidates(t, now, IMMINENT_WINDOWS) else [];
        assert KeySet(ds) == if DueSoonWindow(due, now) then {DueSoonKey(t.id, DayOf(due))} else {};
        assert KeySet(ov) == if now > due then {OverdueKey(t.id, DayOf(due))} else {};
        KeySetAppend(ds, im);
        KeySetAppend(ds + im, ov);
        ImminentKeys(t, now, IMMINENT_WINDOWS, k);
        if MinutesUntil(due, now) <= 0 {
          assert KeySet(im) == {};
        }
      } else {
        assert KeySet(DeadlineCandidates(t, now)) == {};
      }
    } else {
      assert KeySet(TaskCandidates(t, now)) == {};
    }
  }

  /** A key is among a scan's candidates iff some task's rules call for it. */
  lemma {:induction false} CandidateKeys(tasks: seq<Task>, now: Instant, k: ReminderKey)
    ensures k in KeySet(Candidates(tasks, now)) <==> exists i | 0 <= i < |tasks| :: ReminderDue(tasks[i], now, k)
    decreases |tasks|
  {
    if tasks != [] {
      var init, t := tasks[..|tasks| - 1], tasks[|tasks| - 1];
      CandidateKeys(init, now, k);
      KeySetAppend(Candidates(init, now), TaskCandidates(t, now));
      TaskCandidateKeys(t, now, k);
      Seqs.ExistsSnoc(tasks, init, (x: Task) => ReminderDue(x, now, k));
    }
  }

  /**
   * What one call sends: a key is sent iff some task's rules call for it and
   * it is not yet recorded; afterwards the record holds the old keys plus
   * every key called for.
   */
  lemma PassSends(tasks: seq<Task>, now: Instant, sent: set<ReminderKey>, k: ReminderKey)
    ensures k in FiredKeys(Pass(tasks, now, sent)) <==>
              k !in sent && exists i | 0 <= i < |tasks| :: ReminderDue(tasks[i], now, k)
    ensures k in Pass(tasks, now, sent).sent <==>
              k in sent || exists i | 0 <= i < |tasks| :: ReminderDue(tasks[i], now, k)
  {
    FiredKeysExactly(Candidates(tasks, now), sent);
    FireRecords(Candidates(tasks, now), sent);
    CandidateKeys(tasks, now, k);
  }

  /** With distinct task ids, a key owned by task `i` is sent iff that task's rules call for it and it is new. */
  lemma PassSendsForTask(tasks: seq<Task>, now: Instant, sent: set<ReminderKey>, i: int, k: ReminderKey)
    requires UniqueIds(tasks) && 0 <= i < |tasks| && k.taskId == tasks[i].id
    ensures k in FiredKeys(Pass(tasks, now, sent)) <==> k !in sent && ReminderDue(tasks[i], now, k)
    ensures k in Pass(tasks, now, sent).sent <==> k in sent || ReminderDue(tasks[i], now, k)
  {
    PassSends(tasks, now, sent, k);
  }

  /** A completed task causes no send and adds no key. */
  lemma CompletedTaskSilent(tasks: seq<Task>, now: Instant, sent: set<ReminderKey>, i: int, k: ReminderKey)
    requires UniqueIds(tasks) && 0 <= i < |tasks| && tasks[i].completed && k.taskId == tasks[i].id
    ensures k !in FiredKeys(Pass(tasks, now, sent))
    ensures k in Pass(tasks, now, sent).sent <==> k in sent
  {
    PassSendsForTask(tasks, now, sent, i, k);
  }

  /**
   * Kind exclusivity: deadline reminders go only to tasks with a due date and
   * no recurrence, the nudge only to daily tasks; weekly and monthly tasks
   * get nothing.
   */
  lemma KindExclusive(tasks: seq<Task>, now: Instant, sent: set<ReminderKey>, i: int, k: ReminderKey)
    requires UniqueIds(tasks) && 0 <= i < |tasks| && k.taskId == tasks[i].id
    requires k in FiredKeys(Pass(tasks, now, sent))
    ensures k.RecurringKey? ==> tasks[i].recurrence == Some(Daily)
    ensures !k.RecurringKey? ==> tasks[i].dueDate.Some? && tasks[i].recurrence.None?
    ensures tasks[i].recurrence != Some(Weekly) && tasks[i].recurrence != Some(Monthly)
  {
    PassSendsForTask(tasks, now, sent, i, k);
  }

  /** The two imminent bands are disjoint: at most one imminent reminder per task per call. */
  lemma OneImminentPerPass(tasks: seq<Task>, now: Instant, sent: set<ReminderKey>, i: int, k1: ReminderKey, k2: ReminderKey)
    requires UniqueIds(tasks) && 0 <= i < |tasks|
    requires k1.ImminentKey? && k2.ImminentKey? && k1.taskId == tasks[i].id && k2.taskId == tasks[i].id
    requires k1 in FiredKeys(Pass(tasks, now, sent)) && k2 in FiredKeys(Pass(tasks, now, sent))
    ensures k1 == k2
  {
    PassSendsForTask(tasks, now, sent, i, k1);
    PassSendsForTask(tasks, now, sent, i, k2);
  }

  /** Due-soon needs `now` before the deadline and overdue needs it after: never both in one call. */
  lemma DueSoonExcludesOverdue(tasks: seq<Task>, now: Instant, sent: set<ReminderKey>, i: int, d1: Day, d2: Day)
    requires UniqueIds(tasks) && 0 <= i < |tasks|
    requires DueSoonKey(tasks[i].id, d1) in FiredKeys(Pass(tasks, now, sent))
    ensures OverdueKey(tasks[i].id, d2) !in FiredKeys(Pass(tasks, now, sent))
  {
    PassSendsForTask(tasks, now, sent, i, DueSoonKey(tasks[i].id, d1));
    PassSendsForTask(tasks, now, sent, i, OverdueKey(tasks[i].id, d2));
  }

  /** A second call with the same `now` and tasks sends nothing. */
  lemma SecondPassSendsNothing(tasks: seq<Task>, now: Instant, sent: set<ReminderKey>)
    ensures Pass(tasks, now, Pass(tasks, now, sent).sent).fired == []
  {
    SecondPassSilent(Candidates(tasks, now), sent);
  }

  /** Calls at later instants never resend a key an earlier call sent. */
  lemma LaterPassNeverResends(tasks1: seq<Task>, now1: Instant, tasks2: seq<Task>, now2: Instant, sent: set<ReminderKey>)
    ensures FiredKeys(Pass(tasks1, now1, sent)) !! FiredKeys(Pass(tasks2, now2, Pass(tasks1, now1, sent).sent))
  {
    NeverSentTwice(Candidates(tasks1, now1), Candidates(tasks2, now2), sent);
  }

  /** The imminent key of task `t` for a window whose band holds `m`. */
  predicate ImminentFor(t: Task, m: int, k: ReminderKey)
    requires t.dueDate.Some?
  {
    k.ImminentKey? && k == ImminentKey(t.id, k.window, HourStampOf(t.dueDate.value)) && k.window in IMMINENT_WINDOWS &&
    InImminentBand(m, k.window)
  }

  /** A pending deadline task due at 01:00 or later, on its own in the list. */
  predicate ScenarioTask(t: Task)
  {
    IsDeadlineTask(t) && !t.completed && HourOf(t.dueDate.value) >= 1
  }

  /** `m` minutes before such a deadline, only imminent keys for a band holding `m` are due. */
  lemma ScenarioDue(t: Task, m: int, k: ReminderKey)
    requires ScenarioTask(t) && 0 < m < 60
    ensures ReminderDue(t, t.dueDate.value - m * MINUTE_MS, k) <==> ImminentFor(t, m, k)
  {
    var due := t.dueDate.value;
    var now := due - m * MINUTE_MS;
    DayOfBounds(due);
    TimeOfDayOffset(due);
    assert DayOf(now) == DayOf(due);
    assert MinutesUntil(due, now) == m;
  }

  /** One call at `m` minutes before the deadline, against the record `sent`. */
  lemma ScenarioPass(t: Task, m: int, sent: set<ReminderKey>, k: ReminderKey)
    requires ScenarioTask(t) && 0 < m < 60
    ensures k in FiredKeys(Pass([t], t.dueDate.value - m * MINUTE_MS, sent)) <==> k !in sent && ImminentFor(t, m, k)
    ensures k in Pass([t], t.dueDate.value - m * MINUTE_MS, sent).sent <==> k in sent || ImminentFor(t, m, k)
  {
    PassSingle(t, t.dueDate.value - m * MINUTE_MS, sent, k);
    ScenarioDue(t, m, k);
  }

  /** A call over a single task sends the keys its rules call for that are new. */
  lemma PassSingle(t: Task, now: Instant, sent: set<ReminderKey>, k: ReminderKey)
    ensures k in FiredKeys(Pass([t], now, sent)) <==> k !in sent && ReminderDue(t, now, k)
    ensures k in Pass([t], now, sent).sent <==> k in sent || ReminderDue(t, now, k)
  {
    PassSends([t], now, sent, k);
    assert [t][0] == t;
  }

  /** The key of the imminent reminder of task `t` for window `w`. */
  function ImminentKeyOf(t: Task, w: int): ReminderKey
    requires t.dueDate.Some?
  {
    ImminentKey(t.id, w, HourStampOf(t.dueDate.value))
  }

  /** 28 minutes before the deadline only the 30-minute band holds. */
  lemma ImminentAt28(t: Task, k: ReminderKey)
    requires t.dueDate.Some?
    ensures ImminentFor(t, 28, k) <==> k == ImminentKeyOf(t, 30)
  {
    assert InImminentBand(28, 30) && !InImminentBand(28, 10);
    assert 30 in IMMINENT_WINDOWS;
  }

  /** 28 minutes before the deadline, with nothing recorded, the 30-minute reminder is sent. */
  lemma ScenarioFirstPoll(t: Task, p: Outcome<ReminderKey, Message>)
    requires ScenarioTask(t) && p == Pass([t], t.dueDate.value - 28 * MINUTE_MS, {})
    ensures FiredKeys(p) == {ImminentKeyOf(t, 30)} && p.sent == {ImminentKeyOf(t, 30)}
  {
    forall k ensures (k in FiredKeys(p) <==> k == ImminentKeyOf(t, 30)) && (k in p.sent <==> k == ImminentKeyOf(t, 30)) {
      ScenarioPass(t, 28, {}, k);
      ImminentAt28(t, k);
    }
  }

  /** 23 minutes before the deadline no band holds, so nothing is sent. */
  lemma ScenarioQuietPoll(t: Task, sent: set<ReminderKey>, p: Outcome<ReminderKey, Message>)
    requires ScenarioTask(t) && p == Pass([t], t.dueDate.value - 23 * MINUTE_MS, sent)
    ensures FiredKeys(p) == {} && p.sent == sent
  {
    forall k ensures k !in FiredKeys(p) && (k in p.sent <==> k in sent) {
      ScenarioPass(t, 23, sent, k);
    }
  }

  /** 9 minutes before the deadline only the 10-minute band holds. */
  lemma ImminentAt9(t: Task, k: ReminderKey)
    requires t.dueDate.Some?
    ensures ImminentFor(t, 9, k) <==> k == ImminentKeyOf(t, 10)
  {
    assert InImminentBand(9, 10) && !InImminentBand(9, 30);
    assert 10 in IMMINENT_WINDOWS;
  }

  /** 9 minutes before the deadline the 10-minute reminder is sent, unless already recorded. */
  lemma ScenarioLastPoll(t: Task, sent: set<ReminderKey>, p: Outcome<ReminderKey, Message>)
    requires ScenarioTask(t) && p == Pass([t], t.dueDate.value - 9 * MINUTE_MS, sent)
    requires ImminentKeyOf(t, 10) !in sent
    ensures FiredKeys(p) == {ImminentKeyOf(t, 10)}
  {
    forall k ensures k in FiredKeys(p) <==> k == ImminentKeyOf(t, 10) {
      ScenarioPass(t, 9, sent, k);
      ImminentAt9(t, k);
    }
  }

  /**
   * Polling every 5 minutes before a deadline: 28 minutes before it the
   * 30-minute reminder is sent, 23 minutes before nothing, 9 minutes before
   * the 10-minute reminder.
   */
  lemma ImminentScenario(t: Task, p1: Outcome<ReminderKey, Message>, p2: Outcome<ReminderKey, Message>,
                          p3: Outcome<ReminderKey, Message>)
    requires ScenarioTask(t)
    requires p1 == Pass([t], t.dueDate.value - 28 * MINUTE_MS, {})
    requires p2 == Pass([t], t.dueDate.value - 23 * MINUTE_MS, p1.sent)
    requires p3 == Pass([t], t.dueDate.value - 9 * MINUTE_MS, p2.sent)
    ensures FiredKeys(p1) == {ImminentKeyOf(t, 30)}
    ensures FiredKeys(p2) == {}
    ensures FiredKeys(p3) == {ImminentKeyOf(t, 10)}
  {
    ScenarioFirstPoll(t, p1);
    ScenarioQuietPoll(t, p1.sent, p2);
    ScenarioLastPoll(t, p2.sent, p3);
  }

  /** The `j`-th call of a schedule that calls every 5 minutes from `start`. */
  function PollAt(start: Instant, j: nat): Instant
  {
    start + j * (IMMINENT_BAND * MINUTE_MS)
  }

  /** Each 5-minute step before the deadline takes exactly 5 off the whole minutes left. */
  lemma MinutesAtPoll(due: Instant, start: Instant, j: nat)
    requires due - PollAt(start, j) >= 0
    ensures MinutesUntil(due, PollAt(start, j)) == MinutesUntil(due, start) - IMMINENT_BAND * j
  {
    var d0 := due - start;
    var q, r := d0 / MINUTE_MS, d0 % MINUTE_MS;
    DivModUnique(due - PollAt(start, j), MINUTE_MS, q - IMMINENT_BAND * j, r);
  }

  /** A positive count of minutes left means the deadline has not passed. */
  lemma MinutesPositive(due: Instant, now: Instant)
    requires MinutesUntil(due, now) > 0
    ensures due - now >= MINUTE_MS
  {
  }

  /**
   * Calling every 5 minutes from at least `w` minutes before a deadline,
   * some call finds the deadline inside the band of window `w`.
   */
  lemma PollingHitsBand(t: Task, start: Instant, w: int)
    requires IsDeadlineTask(t) && !t.completed && w in IMMINENT_WINDOWS
    requires t.dueDate.value - start >= w * MINUTE_MS
    ensures exists k: nat :: ReminderDue(t, PollAt(start, k), ImminentKeyOf(t, w))
  {
    var due := t.dueDate.value;
    var m0 := MinutesUntil(due, start);
    assert m0 >= w by {
      DivModUnique(due - start, MINUTE_MS, (due - start) / MINUTE_MS, (due - start) % MINUTE_MS);
    }
    var k: nat := (m0 - w + IMMINENT_BAND - 1) / IMMINENT_BAND;
    assert m0 - IMMINENT_BAND * k > w - IMMINENT_BAND && m0 - IMMINENT_BAND * k <= w;
    assert due - PollAt(start, k) >= 0 by {
      DivModUnique(due - start, MINUTE_MS, m0, (due - start) % MINUTE_MS);
    }
    MinutesAtPoll(due, start, k);
    assert ReminderDue(t, PollAt(start, k), ImminentKeyOf(t, w));
  }

  /** ... and no other call of the schedule does, so each window is reminded at most once. */
  lemma PollingHitsBandOnce(t: Task, start: Instant, w: int, j1: nat, j2: nat)
    requires IsDeadlineTask(t) && w in IMMINENT_WINDOWS
    requires ReminderDue(t, PollAt(start, j1), ImminentKeyOf(t, w))
    requires ReminderDue(t, PollAt(start, j2), ImminentKeyOf(t, w))
    ensures j1 == j2
  {
    var due := t.dueDate.value;
    MinutesPositive(due, PollAt(start, j1));
    MinutesPositive(due, PollAt(start, j2));
    MinutesAtPoll(due, start, j1);
    MinutesAtPoll(due, start, j2);
  }

  /** For a pending deadline task only the deadline keys of its own due day can be due. */
  lemma DeadlineKeysOnly(t: Task, now: Instant, k: ReminderKey)
    requires IsDeadlineTask(t) && !t.completed
    ensures ReminderDue(t, now, k) <==>
      || (k == DueSoonKey(t.id, DayOf(t.dueDate.value)) && DueSoonWindow(t.dueDate.value, now))
      || (k == OverdueKey(t.id, DayOf(t.dueDate.value)) && now > t.dueDate.value)
      || (k.ImminentKey? && ReminderDue(t, now, k))
  {
  }

  /**
   * A deadline at 10:00 on day `d`: at 18:00 the evening before, the due-soon
   * reminder and nothing else is sent; at 09:00 on the day itself nothing is
   * sent, neither due-soon (same day) nor overdue (not yet past) nor imminent
   * (60 minutes left).
   */
  lemma DueSoonScenario(t: Task, d: Day, sent: set<ReminderKey>)
    requires IsDeadlineTask(t) && !t.completed && t.dueDate.value == StartOfDay(d) + 10 * HOUR_MS
    ensures FiredKeys(Pass([t], StartOfDay(d - 1) + 18 * HOUR_MS, {})) == {DueSoonKey(t.id, d)}
    ensures FiredKeys(Pass([t], StartOfDay(d) + 9 * HOUR_MS, sent)) == {}
  {
    var due := t.dueDate.value;
    var eve, morning := StartOfDay(d - 1) + 18 * HOUR_MS, StartOfDay(d) + 9 * HOUR_MS;
    Compose(d, 10, 0, 0);
    Compose(d - 1, 18, 0, 0);
    Compose(d, 9, 0, 0);
    assert MinutesUntil(due, eve) == 960;
    assert MinutesUntil(due, morning) == 60;
    forall k
      ensures k in FiredKeys(Pass([t], eve, {})) <==> k == DueSoonKey(t.id, d)
      ensures k !in FiredKeys(Pass([t], morning, sent))
    {
      PassSingle(t, eve, {}, k);
      PassSingle(t, morning, sent, k);
      DeadlineKeysOnly(t, eve, k);
      DeadlineKeysOnly(t, morning, k);
    }
  }

  /** For a pending daily task only today's nudge can be due, and only when the nudge rule holds. */
  lemma NudgeKeysOnly(t: Task, now: Instant, k: ReminderKey)
    requires t.recurrence == Some(Daily) && !t.completed
    ensures ReminderDue(t, now, k) <==> k == RecurringKey(t.id, DayOf(now)) && NudgeDue(t, now)
  {
  }

  /** A call at 18:59 on a day with nothing logged sends the daily task nothing. */
  lemma NudgeBefore19(t: Task, d: Day, sent: set<ReminderKey>, p: Outcome<ReminderKey, Message>)
    requires t.recurrence == Some(Daily) && !t.completed
    requires p == Pass([t], StartOfDay(d) + 18 * HOUR_MS + 59 * MINUTE_MS, sent)
    ensures FiredKeys(p) == {} && p.sent == sent
  {
    var now := StartOfDay(d) + 18 * HOUR_MS + 59 * MINUTE_MS;
    Compose(d, 18, 59, 0);
    forall k ensures k !in FiredKeys(p) && (k in p.sent <==> k in sent) {
      PassSingle(t, now, sent, k);
      NudgeKeysOnly(t, now, k);
    }
  }

  /** A call at `now` on day `d`, 19:00 or later, with nothing logged that day, sends the nudge unless recorded. */
  lemma NudgeFrom19(t: Task, d: Day, now: Instant, sent: set<ReminderKey>, p: Outcome<ReminderKey, Message>)
    requires t.recurrence == Some(Daily) && !t.completed && !HasLogOn(t.progress, d)
    requires DayOf(now) == d && HourOf(now) >= RECURRING_REMINDER_HOUR
    requires p == Pass([t], now, sent)
    ensures FiredKeys(p) == (if RecurringKey(t.id, d) in sent then {} else {RecurringKey(t.id, d)})
    ensures p.sent == sent + {RecurringKey(t.id, d)}
  {
    forall k
      ensures k in FiredKeys(p) <==> k == RecurringKey(t.id, d) && k !in sent
      ensures k in p.sent <==> k in sent || k == RecurringKey(t.id, d)
    {
      PassSingle(t, now, sent, k);
      NudgeKeysOnly(t, now, k);
    }
  }

  /**
   * A daily task with nothing logged on day `d`: a call at 18:59 sends
   * nothing, one at 19:00 sends the nudge, and one at 19:30 does not send it
   * again.
   */
  lemma NudgeScenario(t: Task, d: Day, p1: Outcome<ReminderKey, Message>, p2: Outcome<ReminderKey, Message>,
                      p3: Outcome<ReminderKey, Message>)
    requires t.recurrence == Some(Daily) && !t.completed && !HasLogOn(t.progress, d)
    requires p1 == Pass([t], StartOfDay(d) + 18 * HOUR_MS + 59 * MINUTE_MS, {})
    requires p2 == Pass([t], StartOfDay(d) + 19 * HOUR_MS, p1.sent)
    requires p3 == Pass([t], StartOfDay(d) + 19 * HOUR_MS + 30 * MINUTE_MS, p2.sent)
    ensures FiredKeys(p1) == {}
    ensures FiredKeys(p2) == {RecurringKey(t.id, d)}
    ensures FiredKeys(p3) == {}
  {
    NudgeBefore19(t, d, {}, p1);
    Compose(d, 19, 0, 0);
    NudgeFrom19(t, d, StartOfDay(d) + 19 * HOUR_MS, p1.sent, p2);
    Compose(d, 19, 30, 0);
    NudgeFrom19(t, d, StartOfDay(d) + 19 * HOUR_MS + 30 * MINUTE_MS, p2.sent, p3);
  }

  /** Once progress is logged on day `d`, no call on that day sends the task anything. */
  lemma LoggedTodaySilent(t: Task, now: Instant, sent: set<ReminderKey>)
    requires t.recurrence == Some(Daily) && HasLogOn(t.progress, DayOf(now))
    ensures FiredKeys(Pass([t], now, sent)) == {}
  {
    forall k ensures k !in FiredKeys(Pass([t], now, sent)) {
      PassSingle(t, now, sent, k);
    }
  }

  /** The endpoint with its module-level key record. */
  class ReminderRoute {
    const cronSecret: Option<string>
    const sentReminders: Ledger<ReminderKey, Message>

    constructor (cronSecret: Option<string>)
      ensures this.cronSecret == cronSecret && fresh(sentReminders) && sentReminders.sent == {}
    {
      this.cronSecret := cronSecret;
      sentReminders := new Ledger();
    }

    /**
     * `POST`: rejects a request whose authorization header is not
     * `Bearer <CRON_SECRET>`; answers 500 when the task list cannot be read;
     * otherwise runs one pass over the tasks at `now`.
     */
    method Post(authorization: Option<string>, fetched: Result<seq<Task>>, now: Instant, channel: Channel<Message>)
      returns (response: Response)
      modifies sentReminders, channel
      ensures authorization != Some(ExpectedAuthorization(cronSecret)) ==>
                response == Unauthorized &&
                sentReminders.sent == old(sentReminders.sent) && channel.outbox == old(channel.outbox)
      ensures authorization == Some(ExpectedAuthorization(cronSecret)) && fetched.Failure? ==>
                response == Failed(fetched.error) &&
                sentReminders.sent == old(sentReminders.sent) && channel.outbox == old(channel.outbox)
      ensures authorization == Some(ExpectedAuthorization(cronSecret)) && fetched.Success? ==>
                var o := Pass(fetched.value, now, old(sentReminders.sent));
                response == Checked && sentReminders.sent == o.sent &&
                channel.outbox == old(channel.outbox) + Messages(o.fired)
    {
      if authorization != Some(ExpectedAuthorization(cronSecret)) {
        return Unauthorized;
      }
      if fetched.Failure? {
        return Failed(fetched.error);
      }
      ScanAll(fetched.value, now, channel);
      return Checked;
    }

    /** The loop over the fetched tasks. */
    method ScanAll(tasks: seq<Task>, now: Instant, channel: Channel<Message>)
      modifies sentReminders, channel
      ensures sentReminders.After(Candidates(tasks, now), old(sentReminders.sent), old(channel.outbox), channel)
    {
      ghost var sent0, outbox0 := sentReminders.sent, channel.outbox;
      var i := 0;
      while i < |tasks|
        invariant 0 <= i <= |tasks|
        invariant sentReminders.After(Candidates(tasks[..i], now), sent0, outbox0, channel)
      {
        CandidatesStep(tasks, i, now);
        if !tasks[i].completed {
          ScanTask(tasks[i], now, channel, Candidates(tasks[..i], now), sent0, outbox0);
        }
        i := i + 1;
      }
      assert tasks[..|tasks|] == tasks;
    }

    /** The body of the scan for one task that is not completed. */
    method ScanTask(task: Task, now: Instant, channel: Channel<Message>,
                    ghost done: seq<Reminder>, ghost sent0: set<ReminderKey>, ghost outbox0: seq<Message>)
      requires !task.completed
      requires sentReminders.After(done, sent0, outbox0, channel)
      modifies sentReminders, channel
      ensures sentReminders.After(done + TaskCandidates(task, now), sent0, outbox0, channel)
    {
      ghost var dl, rc := DeadlineCandidates(task, now), RecurringCandidates(task, now);
      if task.dueDate.Some? && task.recurrence.None? {
        ScanDeadline(task, now, channel, done, sent0, outbox0);
      } else {
        assert done + dl == done;
      }
      ghost var considered := done + dl;

      if task.recurrence == Some(Daily) {
        var recurring := Dispatch(RecurringKey(task.id, DayOf(now)), DailyNudge(task.title));
        if !HasLogOn(task.progress, DayOf(now)) && HourOf(now) >= RECURRING_REMINDER_HOUR {
          sentReminders.Consider(recurring, channel, considered, sent0, outbox0);
          considered := considered + [recurring];
        }
      }
      assert considered == done + TaskCandidates(task, now) by {
        assert TaskCandidates(task, now) == dl + rc;
        assert done + (dl + rc) == (done + dl) + rc;
      }
    }

    /** The due-soon, imminent and overdue checks of one deadline task. */
    method ScanDeadline(task: Task, now: Instant, channel: Channel<Message>,
                        ghost done: seq<Reminder>, ghost sent0: set<ReminderKey>, ghost outbox0: seq<Message>)
      requires IsDeadlineTask(task)
      requires sentReminders.After(done, sent0, outbox0, channel)
      modifies sentReminders, channel
      ensures sentReminders.After(done + DeadlineCandidates(task, now), sent0, outbox0, channel)
    {
      ghost var ds, ov := DueSoonCandidates(task, now), OverdueCandidates(task, now);
      ghost var im := if MinutesUntil(task.dueDate.value, now) > 0 then ImminentCandidates(task, now, IMMINENT_WINDOWS) else [];
      ScanDueSoon(task, now, channel, done, sent0, outbox0);
      var minutesUntilDue := MinutesUntil(task.dueDate.value, now);
      if minutesUntilDue > 0 {
        ScanImminent(task, now, minutesUntilDue, channel, done + ds, sent0, outbox0);
      } else {
        assert (done + ds) + im == done + ds;
      }
      ScanOverdue(task, now, channel, (done + ds) + im, sent0, outbox0);
      assert ((done + ds) + im) + ov == done + DeadlineCandidates(task, now) by {
        assert DeadlineCandidates(task, now) == (ds + im) + ov;
      }
    }

    /** The due-soon check: inside the day before the deadline, but not on its own day. */
    method ScanDueSoon(task: Task, now: Instant, channel: Channel<Message>,
                       ghost done: seq<Reminder>, ghost sent0: set<ReminderKey>, ghost outbox0: seq<Message>)
      requires IsDeadlineTask(task)
      requires sentReminders.After(done, sent0, outbox0, channel)
      modifies sentReminders, channel
      ensures sentReminders.After(done + DueSoonCandidates(task, now), sent0, outbox0, channel)
    {
      var dueDate := task.dueDate.value;
      var dueSoon := Dispatch(DueSoonKey(task.id, DayOf(dueDate)), DueTomorrow(task.title, dueDate));
      if now > dueDate - REMINDER_WINDOW_DAYS * DAY_MS && now < dueDate && DayOf(now) != DayOf(dueDate) {
        sentReminders.Consider(dueSoon, channel, done, sent0, outbox0);
      } else {
        assert done + DueSoonCandidates(task, now) == done;
      }
    }

    /** The overdue check: any time after the deadline. */
    method ScanOverdue(task: Task, now: Instant, channel: Channel<Message>,
                       ghost done: seq<Reminder>, ghost sent0: set<ReminderKey>, ghost outbox0: seq<Message>)
      requires IsDeadlineTask(task)
      requires sentReminders.After(done, sent0, outbox0, channel)
      modifies sentReminders, channel
      ensures sentReminders.After(done + OverdueCandidates(task, now), sent0, outbox0, channel)
    {
      var dueDate := task.dueDate.value;
      var overdue := Dispatch(OverdueKey(task.id, DayOf(dueDate)), OverdueSince(task.title, dueDate));
      if now > dueDate {
        sentReminders.Consider(overdue, channel, done, sent0, outbox0);
      } else {
        assert done + OverdueCandidates(task, now) == done;
      }
    }

    /** The loop over `IMMINENT_WINDOWS` for a deadline still `minutesUntilDue` minutes away. */
    method ScanImminent(task: Task, now: Instant, minutesUntilDue: int, channel: Channel<Message>,
                        ghost done: seq<Reminder>, ghost sent0: set<ReminderKey>, ghost outbox0: seq<Message>)
      requires IsDeadlineTask(task) && minutesUntilDue == MinutesUntil(task.dueDate.value, now)
      requires sentReminders.After(done, sent0, outbox0, channel)
      modifies sentReminders, channel
      ensures sentReminders.After(done + ImminentCandidates(task, now, IMMINENT_WINDOWS), sent0, outbox0, channel)
    {
      ghost var considered := done;
      var dueDate := task.dueDate.value;
      for j := 0 to |IMMINENT_WINDOWS|
        invariant considered == done + ImminentCandidates(task, now, IMMINENT_WINDOWS[..j])
        invariant sentReminders.After(considered, sent0, outbox0, channel)
      {
        var window := IMMINENT_WINDOWS[j];
        assert IMMINENT_WINDOWS[..j + 1][..j] == IMMINENT_WINDOWS[..j];
        if minutesUntilDue <= window && minutesUntilDue > window - IMMINENT_BAND {
          var imminent := Dispatch(ImminentKey(task.id, window, HourStampOf(dueDate)), DueInMinutes(window, task.title));
          sentReminders.Consider(imminent, channel, considered, sent0, outbox0);
          considered := considered + [imminent];
        }
      }
      assert IMMINENT_WINDOWS[..|IMMINENT_WINDOWS|] == IMMINENT_WINDOWS;
    }
  }
}
