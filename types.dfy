/**
 * The shared data shapes of TaskZen (tasks, projects, tags, progress logs)
 * and the calendar arithmetic every component uses.
 *
 * An instant is a count of milliseconds since the epoch, already shifted
 * into the user's local time zone, so that the calendar day, the hour of
 * the day and the minute of the hour are plain divisions.
 */
module Types {

  datatype Option<+T> = None | Some(value: T) {
    function GetOr(default: T): T {
      match this
      case Some(v) => v
      case None => default
    }
  }

  datatype Result<+T> = Success(value: T) | Failure(error: string)

  /** Document identifiers: opaque in the store, naturals here. */
  type Id = nat

  /** Milliseconds since the epoch, local time. */
  type Instant = int

  /** Days since the epoch, local time; `yyyy-MM-dd` renders it injectively. */
  type Day = int

  const MINUTE_MS: int := 60_000
  const HOUR_MS: int := 3_600_000
  const DAY_MS: int := 86_400_000

  /** `startOfDay` / `format(t, 'yyyy-MM-dd')`: the calendar day of an instant. */
  function DayOf(t: Instant): Day {
    t / DAY_MS
  }

  /** The first instant of a calendar day. */
  function StartOfDay(d: Day): Instant {
    d * DAY_MS
  }

  /** `getHours()`. */
  function HourOf(t: Instant): (h: int)
    ensures 0 <= h < 24
  {
    (t % DAY_MS) / HOUR_MS
  }

  /** `getMinutes()`. */
  function MinuteOf(t: Instant): (m: int)
    ensures 0 <= m < 60
  {
    (t % HOUR_MS) / MINUTE_MS
  }

  /** An instant lies inside the day `DayOf` assigns to it. */
  lemma DayOfBounds(t: Instant)
    ensures StartOfDay(DayOf(t)) <= t < StartOfDay(DayOf(t)) + DAY_MS
  {
  }

  /** Later instants never fall on earlier days. */
  lemma DayOfMonotone(a: Instant, b: Instant)
    requires a <= b
    ensures DayOf(a) <= DayOf(b)
  {
    DayOfBounds(a);
    DayOfBounds(b);
  }

  /** Euclidean division is determined by a quotient and an in-range remainder. */
  lemma DivModUnique(x: int, n: int, q: int, r: int)
    requires n > 0 && 0 <= r < n && x == q * n + r
    ensures x / n == q && x % n == r
  {
    var q', r' := x / n, x % n;
    assert x == q' * n + r';
    assert (q - q') * n == r' - r;
    if q > q' {
      MulAtLeast(q - q', n);
    } else if q < q' {
      MulAtLeast(q' - q, n);
    }
  }

  lemma {:induction false} MulAtLeast(k: int, n: int)
    requires k >= 1 && n > 0
    ensures k * n >= n
    decreases k
  {
    if k > 1 {
      MulAtLeast(k - 1, n);
      assert k * n == (k - 1) * n + n;
    }
  }

  /** Rebuilding an instant from its day, hour, minute and sub-minute part gives those parts back. */
  lemma Compose(d: Day, h: int, m: int, s: int)
    requires 0 <= h < 24 && 0 <= m < 60 && 0 <= s < MINUTE_MS
    ensures var t := StartOfDay(d) + h * HOUR_MS + m * MINUTE_MS + s;
            DayOf(t) == d && HourOf(t) == h && MinuteOf(t) == m && t % MINUTE_MS == s
  {
    var y := m * MINUTE_MS + s;
    var x := h * HOUR_MS + y;
    var t := StartOfDay(d) + x;
    DivModUnique(t, DAY_MS, d, x);
    DivModUnique(x, HOUR_MS, h, y);
    DivModUnique(t, HOUR_MS, d * 24 + h, y);
    DivModUnique(y, MINUTE_MS, m, s);
    DivModUnique(t, MINUTE_MS, (d * 24 + h) * 60 + m, s);
  }

  /** The hour and minute of an instant are read off its offset into its day. */
  lemma TimeOfDayOffset(t: Instant)
    ensures t - StartOfDay(DayOf(t)) == HourOf(t) * HOUR_MS + MinuteOf(t) * MINUTE_MS + t % MINUTE_MS
  {
    var x := t % DAY_MS;
    var y := x % HOUR_MS;
    var h, m, s := x / HOUR_MS, y / MINUTE_MS, y % MINUTE_MS;
    assert t == StartOfDay(DayOf(t)) + x;
    assert x == h * HOUR_MS + y;
    assert y == m * MINUTE_MS + s;
    Compose(DayOf(t), h, m, s);
  }

  datatype Recurrence = Daily | Weekly | Monthly

  datatype GoalType = Count | Amount

  datatype Goal = Goal(kind: GoalType, target: real, unit: Option<string>)

  /** One day's logged progress: at most one entry per day is the intended invariant. */
  datatype ProgressLog = ProgressLog(date: Day, value: real)

  datatype Tag = Tag(id: Id, name: string)

  datatype Project = Project(id: Id, name: string, createdAt: Instant)

  datatype Task = Task(
    id: Id,
    title: string,
    description: Option<string>,
    dueDate: Option<Instant>,
    completed: bool,
    projectId: Id,
    tagIds: seq<Id>,
    tags: seq<Tag>,
    recurrence: Option<Recurrence>,
    goal: Option<Goal>,
    progress: Option<seq<ProgressLog>>,
    createdAt: Instant,
    updatedAt: Instant)

  /** The `reduce((acc, log) => acc + log.value, 0)` over a progress array. */
  function SumValues(logs: seq<ProgressLog>): real
  {
    if logs == [] then 0.0 else SumValues(logs[..|logs| - 1]) + logs[|logs| - 1].value
  }

  /** Summing over a concatenation adds the two sums. */
  lemma {:induction false} SumValuesAppend(a: seq<ProgressLog>, b: seq<ProgressLog>)
    ensures SumValues(a + b) == SumValues(a) + SumValues(b)
    decreases |b|
  {
    if b == [] {
      assert a + b == a;
    } else {
      var n := |b| - 1;
      assert (a + b)[..|a + b| - 1] == a + b[..n];
      SumValuesAppend(a, b[..n]);
    }
  }

  /** The progress sum of an optional progress array; a missing array sums to 0. */
  function CurrentProgress(progress: Option<seq<ProgressLog>>): real
  {
    match progress
    case None => 0.0
    case Some(logs) => SumValues(logs)
  }

  /** `progress?.some(p => p.date === day)`. */
  predicate HasLogOn(progress: Option<seq<ProgressLog>>, day: Day)
  {
    progress.Some? && exists i | 0 <= i < |progress.value| :: progress.value[i].date == day
  }

  /** Every task id occurs at most once (store documents have distinct ids). */
  ghost predicate UniqueIds(tasks: seq<Task>)
  {
    forall i, j | 0 <= i < |tasks| && 0 <= j < |tasks| :: tasks[i].id == tasks[j].id ==> i == j
  }
}
