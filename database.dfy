/**
 * The analytics store of database_manager.py.
 *
 * The three SQLite tables become in-memory state of `DatabaseManager`:
 * `daily_stats` is a map from day number to its row (the map key is the
 * UNIQUE `stat_date` column), `break_events` and `posture_events` are
 * sequences in rowid order, and the AUTOINCREMENT counters are explicit
 * fields.  Each Python call opens its own connection and runs in one
 * transaction, so a storage failure makes the whole call do nothing; that
 * is the `storageUp` parameter.  The clock (`datetime.now()`, `date.today()`)
 * is passed in as `now` and `today`.
 */
module Database {
  import opened Wrappers
  import Days

  /** One `daily_stats` row. */
  datatype DailyStat = DailyStat(
    statDate: int,
    screenMinutes: int,
    breaksDone: int,
    breaksMissed: int,
    postureAlerts: int)

  /** The four counter columns of `daily_stats`. */
  datatype Counter = ScreenMinutes | BreaksDone | BreaksMissed | PostureAlerts

  /** One `break_events` row; `endTime == None` is SQL NULL. */
  datatype BreakEvent = BreakEvent(
    id: nat,
    startTime: int,
    endTime: Option<int>,
    completed: bool,
    breakType: string)

  /** One `posture_events` row. */
  datatype PostureEvent = PostureEvent(id: nat, eventTime: int, acknowledged: bool)

  type DailyTable = map<int, DailyStat>

  /**
   * What one call sees of the outside world: `datetime.now()`,
   * `date.today()`, and whether the database file can be used.
   */
  datatype Env = Env(now: int, today: int, storageUp: bool)

  /** The row the column defaults give a freshly inserted date. */
  function EmptyDay(day: int): DailyStat {
    DailyStat(day, 0, 0, 0, 0)
  }

  function Count(row: DailyStat, c: Counter): int {
    match c
    case ScreenMinutes => row.screenMinutes
    case BreaksDone => row.breaksDone
    case BreaksMissed => row.breaksMissed
    case PostureAlerts => row.postureAlerts
  }

  function Bump(row: DailyStat, c: Counter, n: int): DailyStat {
    match c
    case ScreenMinutes => row.(screenMinutes := row.screenMinutes + n)
    case BreaksDone => row.(breaksDone := row.breaksDone + n)
    case BreaksMissed => row.(breaksMissed := row.breaksMissed + n)
    case PostureAlerts => row.(postureAlerts := row.postureAlerts + n)
  }

  /** The row stored for `day`, or the row an INSERT would create. */
  function RowOrEmpty(daily: DailyTable, day: int): DailyStat {
    if day in daily then daily[day] else EmptyDay(day)
  }

  /** Every row sits under its own `stat_date`. */
  predicate KeyedByDate(daily: DailyTable) {
    forall d :: d in daily ==> daily[d].statDate == d
  }

  /** The break and posture counters never go below zero. */
  predicate CountersNonNegative(daily: DailyTable) {
    forall d :: d in daily ==>
      daily[d].breaksDone >= 0 && daily[d].breaksMissed >= 0 && daily[d].postureAlerts >= 0
  }

  /**
   * `INSERT INTO daily_stats (stat_date, c) VALUES (day, n)
   *  ON CONFLICT(stat_date) DO UPDATE SET c = c + n`:
   * the row for `day` exists afterwards, its counter `c` has grown by `n`
   * from its stored value (0 when the row was absent), its other counters
   * are as stored (0 when absent), and every other day is untouched.
   */
  function Upsert(daily: DailyTable, day: int, c: Counter, n: int): (r: DailyTable)
    requires KeyedByDate(daily)
    ensures KeyedByDate(r)
    ensures r.Keys == daily.Keys + {day}
    ensures Count(r[day], c) == (if day in daily then Count(daily[day], c) else 0) + n
    ensures forall other: Counter :: other != c ==>
      Count(r[day], other) == (if day in daily then Count(daily[day], other) else 0)
    ensures forall d :: d in daily && d != day ==> r[d] == daily[d]
  {
    daily[day := Bump(RowOrEmpty(daily, day), c, n)]
  }

  /** Ids strictly ascend in rowid order and never exceed the AUTOINCREMENT counter. */
  predicate BreakIdsBelow(events: seq<BreakEvent>, last: nat) {
    && (forall i, j :: 0 <= i < j < |events| ==> events[i].id < events[j].id)
    && (forall i :: 0 <= i < |events| ==> 0 < events[i].id <= last)
  }

  predicate PostureIdsBelow(events: seq<PostureEvent>, last: nat) {
    && (forall i, j :: 0 <= i < j < |events| ==> events[i].id < events[j].id)
    && (forall i :: 0 <= i < |events| ==> 0 < events[i].id <= last)
  }

  /**
   * `UPDATE break_events SET end_time = now, completed = c WHERE id = breakId`:
   * the rows with that id are closed, every other row is unchanged, and an
   * id that no row carries changes nothing.
   */
  function Closed(events: seq<BreakEvent>, breakId: int, now: int, completed: bool): (r: seq<BreakEvent>)
    ensures |r| == |events|
    ensures forall i :: 0 <= i < |events| ==>
      r[i].id == events[i].id && r[i].startTime == events[i].startTime && r[i].breakType == events[i].breakType
    ensures forall i :: 0 <= i < |events| && events[i].id == breakId ==>
      r[i].endTime == Some(now) && r[i].completed == completed
    ensures forall i :: 0 <= i < |events| && events[i].id != breakId ==> r[i] == events[i]
  {
    seq(|events|, i requires 0 <= i < |events| =>
      if events[i].id == breakId then events[i].(endTime := Some(now), completed := completed)
      else events[i])
  }

  lemma ClosedUnknownId(events: seq<BreakEvent>, breakId: int, now: int, completed: bool)
    requires forall i :: 0 <= i < |events| ==> events[i].id != breakId
    ensures Closed(events, breakId, now, completed) == events
  {
  }

  class DatabaseManager {
    var daily: DailyTable
    var breakEvents: seq<BreakEvent>
    var postureEvents: seq<PostureEvent>
    /** The `sqlite_sequence` entries: the largest id ever handed out per table. */
    var lastBreakId: nat
    var lastPostureId: nat

    ghost predicate Valid()
      reads this
    {
      && KeyedByDate(daily)
      && CountersNonNegative(daily)
      && BreakIdsBelow(breakEvents, lastBreakId)
      && PostureIdsBelow(postureEvents, lastPostureId)
    }

    /**
     * `DatabaseManager()`: `CREATE TABLE IF NOT EXISTS` keeps whatever the
     * database file already holds, AUTOINCREMENT counters included; on the
     * first run every table is empty and both counters are 0.  The stored
     * tables are those the operations below leave behind.
     */
    constructor (daily: DailyTable, breakEvents: seq<BreakEvent>, postureEvents: seq<PostureEvent>,
                 lastBreakId: nat, lastPostureId: nat)
      requires KeyedByDate(daily) && CountersNonNegative(daily)
      requires BreakIdsBelow(breakEvents, lastBreakId) && PostureIdsBelow(postureEvents, lastPostureId)
      ensures Valid()
      ensures this.daily == daily && this.breakEvents == breakEvents && this.postureEvents == postureEvents
      ensures this.lastBreakId == lastBreakId && this.lastPostureId == lastPostureId
    {
      this.daily := daily;
      this.breakEvents := breakEvents;
      this.postureEvents := postureEvents;
      this.lastBreakId := lastBreakId;
      this.lastPostureId := lastPostureId;
    }

    /** `add_screen_minutes(minutes, day)`; `day == None` means today. */
    method AddScreenMinutes(minutes: int, day: Option<int>, today: int, storageUp: bool)
      requires Valid()
      modifies this
      ensures Valid()
      ensures daily == if storageUp then Upsert(old(daily), day.GetOr(today), ScreenMinutes, minutes) else old(daily)
      ensures breakEvents == old(breakEvents) && lastBreakId == old(lastBreakId)
      ensures postureEvents == old(postureEvents) && lastPostureId == old(lastPostureId)
    {
      if storageUp {
        daily := Upsert(daily, day.GetOr(today), ScreenMinutes, minutes);
      }
    }

    /**
     * The change `record_break_start(breakType)` makes: one open event with
     * a fresh id, larger than every id handed out before, appended to
     * `break_events`, that id returned; with storage down, nothing changes
     * and the id is 0.
     */
    twostate predicate BreakStartRecorded(id: int, breakType: string, now: int, storageUp: bool)
      reads this
    {
      && (id == 0 <==> !storageUp)
      && (storageUp ==> id == old(lastBreakId) + 1 && lastBreakId == id
                        && breakEvents == old(breakEvents) + [BreakEvent(id, now, None, false, breakType)])
      && (!storageUp ==> breakEvents == old(breakEvents) && lastBreakId == old(lastBreakId))
      && daily == old(daily)
      && postureEvents == old(postureEvents) && lastPostureId == old(lastPostureId)
    }

    /** `record_break_start(break_type)`. */
    method RecordBreakStart(breakType: string, now: int, storageUp: bool) returns (id: nat)
      requires Valid()
      modifies this
      ensures Valid()
      ensures BreakStartRecorded(id, breakType, now, storageUp)
      ensures storageUp ==> forall i :: 0 <= i < |old(breakEvents)| ==> old(breakEvents)[i].id < id
    {
      if !storageUp {
        return 0;
      }
      id := lastBreakId + 1;
      lastBreakId := id;
      breakEvents := breakEvents + [BreakEvent(id, now, None, false, breakType)];
    }

    /**
     * The change `record_break_end(breakId, completed)` makes: the events
     * with that id are closed, and one completed or one missed break is
     * counted for TODAY (not for the day the break started), whether or not
     * any event has that id; with storage down, nothing changes.
     */
    twostate predicate BreakEndRecorded(breakId: int, completed: bool, now: int, today: int, storageUp: bool)
      requires old(KeyedByDate(daily))
      reads this
    {
      && breakEvents == (if storageUp then Closed(old(breakEvents), breakId, now, completed) else old(breakEvents))
      && daily == (if storageUp then Upsert(old(daily), today, if completed then BreaksDone else BreaksMissed, 1)
                   else old(daily))
      && lastBreakId == old(lastBreakId)
      && postureEvents == old(postureEvents) && lastPostureId == old(lastPostureId)
    }

    /** `record_break_end(break_id, completed)`. */
    method RecordBreakEnd(breakId: int, completed: bool, now: int, today: int, storageUp: bool)
      requires Valid()
      modifies this
      ensures Valid()
      ensures BreakEndRecorded(breakId, completed, now, today, storageUp)
    {
      if storageUp {
        breakEvents := Closed(breakEvents, breakId, now, completed);
        daily := Upsert(daily, today, if completed then BreaksDone else BreaksMissed, 1);
      }
    }

    /**
     * The change `record_posture_alert()` makes: exactly one posture event
     * appended and today's `posture_alerts` raised by one; with storage
     * down, nothing changes.
     */
    twostate predicate PostureAlertRecorded(now: int, today: int, storageUp: bool)
      requires old(KeyedByDate(daily))
      reads this
    {
      && (storageUp ==> lastPostureId == old(lastPostureId) + 1
                        && postureEvents == old(postureEvents) + [PostureEvent(lastPostureId, now, true)]
                        && daily == Upsert(old(daily), today, PostureAlerts, 1))
      && (!storageUp ==> postureEvents == old(postureEvents) && lastPostureId == old(lastPostureId)
                         && daily == old(daily))
      && breakEvents == old(breakEvents) && lastBreakId == old(lastBreakId)
    }

    /** `record_posture_alert()`. */
    method RecordPostureAlert(now: int, today: int, storageUp: bool)
      requires Valid()
      modifies this
      ensures Valid()
      ensures PostureAlertRecorded(now, today, storageUp)
    {
      if storageUp {
        lastPostureId := lastPostureId + 1;
        postureEvents := postureEvents + [PostureEvent(lastPostureId, now, true)];
        daily := Upsert(daily, today, PostureAlerts, 1);
      }
    }

    /**
     * `get_break_streak()`: the loop below over the 30 newest rows, newest
     * first; 0 when storage fails.
     */
    method GetBreakStreak(today: int, storageUp: bool) returns (streak: nat)
      requires Valid()
      ensures streak <= StreakWindow
      ensures storageUp ==> IsStreak(NewestRows(daily, StreakWindow), today, streak)
      ensures !storageUp ==> streak == 0
    {
      if !storageUp {
        return 0;
      }
      streak := CountStreak(NewestRows(daily, StreakWindow), today);
    }
  }

  /**
   * The loop of `get_break_streak()`: walks `rows` in order while each row
   * is the expected day (today, today - 1, ...) and has a completed break.
   */
  method CountStreak(rows: seq<DailyStat>, today: int) returns (streak: nat)
    ensures IsStreak(rows, today, streak)
  {
    streak := 0;
    for i := 0 to |rows|
      invariant streak == i
      invariant forall j :: 0 <= j < streak ==> rows[j].statDate == today - j && rows[j].breaksDone > 0
    {
      var expected := today - streak;
      if rows[i].statDate == expected && rows[i].breaksDone > 0 {
        streak := streak + 1;
      } else {
        break;
      }
    }
  }

  // ------------------------------------------------------------------
  // Read-only queries
  // ------------------------------------------------------------------

  /** `get_today_stats()`: today's row, or today's date with all counters 0. */
  function TodayStats(daily: DailyTable, today: int, storageUp: bool): (r: DailyStat)
    requires KeyedByDate(daily)
    ensures r.statDate == today
    ensures storageUp && today in daily ==> r == daily[today]
    ensures !(storageUp && today in daily) ==> forall c: Counter :: Count(r, c) == 0
  {
    if storageUp && today in daily then daily[today] else EmptyDay(today)
  }

  function DatesOf(rows: seq<DailyStat>): (ds: seq<int>)
    ensures |ds| == |rows| && forall i :: 0 <= i < |rows| ==> ds[i] == rows[i].statDate
  {
    seq(|rows|, i requires 0 <= i < |rows| => rows[i].statDate)
  }

  /** The days `get_weekly_stats` selects: `stat_date >= today - 6`, with no upper bound. */
  function WeekWindow(daily: DailyTable, today: int): set<int> {
    set d | d in daily && d >= today - 6
  }

  /**
   * `get_weekly_stats()`: exactly the stored rows dated today - 6 or later
   * (later than today included), oldest first; missing days are absent;
   * empty when storage fails.
   */
  function WeeklyStats(daily: DailyTable, today: int, storageUp: bool): (r: seq<DailyStat>)
    requires KeyedByDate(daily)
    ensures Days.Increasing(DatesOf(r))
    ensures forall i :: 0 <= i < |r| ==> r[i].statDate in daily && daily[r[i].statDate] == r[i]
    ensures forall d :: d in DatesOf(r) <==> storageUp && d in WeekWindow(daily, today)
    ensures |r| == if storageUp then |WeekWindow(daily, today)| else 0
  {
    if !storageUp then []
    else RowsOf(daily, Days.Ascending(WeekWindow(daily, today)))
  }

  /** The stored rows of the days `ds`, in the order of `ds`. */
  function RowsOf(daily: DailyTable, ds: seq<int>): (r: seq<DailyStat>)
    requires KeyedByDate(daily)
    requires forall i :: 0 <= i < |ds| ==> ds[i] in daily
    ensures DatesOf(r) == ds
    ensures forall i :: 0 <= i < |r| ==> r[i] == daily[ds[i]]
  {
    var r := seq(|ds|, i requires 0 <= i < |ds| => daily[ds[i]]);
    assert forall i :: 0 <= i < |ds| ==> DatesOf(r)[i] == ds[i];
    r
  }

  /** `LIMIT 30` of `get_break_streak`. */
  const StreakWindow: nat := 30

  /**
   * `SELECT ... FROM daily_stats ORDER BY stat_date DESC LIMIT limit`:
   * stored rows, newest first, as many as the limit allows;
   * `NewestRowsLeaveOutOlder` shows that the rows left out are the oldest.
   */
  function NewestRows(daily: DailyTable, limit: nat): (r: seq<DailyStat>)
    requires KeyedByDate(daily)
    ensures |r| == if limit < |daily| then limit else |daily|
    ensures NewestFirst(r)
    ensures StoredRows(daily, r)
  {
    var ds := Days.Descending(daily.Keys);
    assert |daily.Keys| == |daily|;
    var n := if limit < |ds| then limit else |ds|;
    CutNewestFirst(ds, n);
    RowsOf(daily, ds[..n])
  }

  /** Strictly descending dates: `ORDER BY stat_date DESC` over a unique column. */
  predicate NewestFirst(rows: seq<DailyStat>) {
    forall i, j :: 0 <= i < j < |rows| ==> rows[i].statDate > rows[j].statDate
  }

  /**
   * A stored day that `NewestRows` does not return is older than every
   * row it returns, and it is left out only because the limit was reached.
   */
  lemma NewestRowsLeaveOutOlder(daily: DailyTable, limit: nat, d: int)
    requires KeyedByDate(daily)
    requires d in daily && d !in DatesOf(NewestRows(daily, limit))
    ensures |NewestRows(daily, limit)| == limit
    ensures limit == 0 || d < NewestRows(daily, limit)[limit - 1].statDate
  {
    var ds := Days.Descending(daily.Keys);
    assert |daily.Keys| == |daily|;
    var n := if limit < |ds| then limit else |ds|;
    CutNewestFirst(ds, n);
    assert DatesOf(NewestRows(daily, limit)) == ds[..n];
  }

  /** Cutting a newest-first list after `n` keeps it newest-first and leaves out only older days. */
  lemma CutNewestFirst(ds: seq<int>, n: nat)
    requires Days.Decreasing(ds) && n <= |ds|
    ensures Days.Decreasing(ds[..n])
    ensures forall i :: 0 <= i < n ==> ds[..n][i] == ds[i]
    ensures forall d :: d in ds && d !in ds[..n] ==> n < |ds| && (n == 0 || d < ds[n - 1])
  {
    forall d | d in ds && d !in ds[..n]
      ensures n < |ds| && (n == 0 || d < ds[n - 1])
    {
      var j :| 0 <= j < |ds| && ds[j] == d;
      assert j >= n;
    }
  }

  /**
   * `streak` is what the loop of `get_break_streak` stops at over `rows`:
   * the first `streak` rows are today, today - 1, ... each with a completed
   * break, and the next row, if any, is not.
   */
  predicate IsStreak(rows: seq<DailyStat>, today: int, streak: nat) {
    && streak <= |rows|
    && (forall j :: 0 <= j < streak ==> rows[j].statDate == today - j && rows[j].breaksDone > 0)
    && (streak < |rows| ==> !(rows[streak].statDate == today - streak && rows[streak].breaksDone > 0))
  }

  /** A day with a stored row and at least one completed break. */
  predicate BreakDay(daily: DailyTable, d: int) {
    d in daily && daily[d].breaksDone > 0
  }

  /**
   * The number of consecutive days, ending today and going back at most
   * `limit` days, that each have a completed break: the "streak of
   * consecutive days with at least one completed break" the docstring of
   * `get_break_streak` promises, independent of row order.
   */
  function DayRun(daily: DailyTable, today: int, limit: nat): (r: nat)
    ensures r <= limit
    ensures forall d :: today - r < d <= today ==> BreakDay(daily, d)
    ensures r < limit ==> !BreakDay(daily, today - r)
    decreases limit
  {
    if limit == 0 || !BreakDay(daily, today) then 0
    else 1 + DayRun(daily, today - 1, limit - 1)
  }

  /** The loop's stopping point is determined by the rows. */
  lemma StreakIsUnique(rows: seq<DailyStat>, today: int, a: nat, b: nat)
    requires IsStreak(rows, today, a) && IsStreak(rows, today, b)
    ensures a == b
  {
  }

  /**
   * In newest-first rows that list a day x, or are full and end after x,
   * no day is skipped: if every row before position k is newer than x,
   * and k < limit, then row k exists and is not older than x.
   */
  lemma NoDaySkipped(rows: seq<DailyStat>, limit: nat, x: int, k: nat)
    requires NewestFirst(rows) && |rows| <= limit
    requires x in DatesOf(rows) || (|rows| == limit && (limit == 0 || x < rows[limit - 1].statDate))
    requires k < limit
    requires forall i :: 0 <= i < k && i < |rows| ==> rows[i].statDate > x
    ensures k < |rows| && rows[k].statDate >= x
  {
    var ds := DatesOf(rows);
    if x in ds {
      var j :| 0 <= j < |rows| && ds[j] == x;
      assert j >= k;
      if j > k {
        assert rows[k].statDate > rows[j].statDate;
      }
    } else if k < limit - 1 {
      assert rows[k].statDate > rows[limit - 1].statDate;
    }
  }

  /**
   * When no row is dated after today, the streak `get_break_streak`
   * computes is the number of consecutive days ending today with a
   * completed break, capped at 30: a missing day or a day without a
   * completed break ends it.
   */
  lemma StreakCountsDays(daily: DailyTable, today: int, streak: nat)
    requires KeyedByDate(daily)
    requires forall d :: d in daily ==> d <= today
    requires IsStreak(NewestRows(daily, StreakWindow), today, streak)
    ensures streak == DayRun(daily, today, StreakWindow)
  {
    NewestRowsComplete(daily, StreakWindow);
    StreakCountsDaysIn(daily, NewestRows(daily, StreakWindow), today, streak);
  }

  /** `StreakCountsDays` for any newest-first stored rows that leave out only older days. */
  lemma StreakCountsDaysIn(daily: DailyTable, rows: seq<DailyStat>, today: int, streak: nat)
    requires StoredRows(daily, rows) && NewestFirst(rows) && |rows| <= StreakWindow
    requires LeavesOutOlder(daily, rows, StreakWindow)
    requires forall d :: d in daily ==> d <= today
    requires IsStreak(rows, today, streak)
    ensures streak == DayRun(daily, today, StreakWindow)
  {
    StreakWithinRun(daily, rows, today, streak);
    if streak < DayRun(daily, today, StreakWindow) {
      NextRowContinues(daily, rows, today, streak);
    }
  }

  /** Every stored day missing from `rows` is older than all of them, and `rows` is full. */
  predicate LeavesOutOlder(daily: DailyTable, rows: seq<DailyStat>, limit: nat) {
    forall d :: d in daily && d !in DatesOf(rows) ==>
      |rows| == limit && (limit == 0 || d < rows[limit - 1].statDate)
  }

  lemma NewestRowsComplete(daily: DailyTable, limit: nat)
    requires KeyedByDate(daily)
    ensures LeavesOutOlder(daily, NewestRows(daily, limit), limit)
  {
    forall d | d in daily && d !in DatesOf(NewestRows(daily, limit))
      ensures |NewestRows(daily, limit)| == limit
      ensures limit == 0 || d < NewestRows(daily, limit)[limit - 1].statDate
    {
      NewestRowsLeaveOutOlder(daily, limit, d);
    }
  }

  /** The rows are stored rows, each under its own date. */
  predicate StoredRows(daily: DailyTable, rows: seq<DailyStat>) {
    forall i :: 0 <= i < |rows| ==> rows[i].statDate in daily && daily[rows[i].statDate] == rows[i]
  }

  /**
   * Every day the loop counts over stored rows has a completed break, so
   * it never counts past the run.
   */
  lemma StreakWithinRun(daily: DailyTable, rows: seq<DailyStat>, today: int, streak: nat)
    requires StoredRows(daily, rows) && |rows| <= StreakWindow
    requires IsStreak(rows, today, streak)
    ensures streak <= DayRun(daily, today, StreakWindow)
  {
    var run := DayRun(daily, today, StreakWindow);
    if run < streak {
      CountedDayHasBreak(daily, rows, today, streak, run);
    }
  }

  /** The j-th day the loop counts is a stored day with a completed break. */
  lemma CountedDayHasBreak(daily: DailyTable, rows: seq<DailyStat>, today: int, streak: nat, j: nat)
    requires StoredRows(daily, rows)
    requires IsStreak(rows, today, streak)
    requires j < streak
    ensures BreakDay(daily, today - j)
  {
    assert rows[j].statDate == today - j;
  }

  /**
   * When the first `streak` rows are today, today - 1, ... and the day
   * after them has a completed break, the next row is that day: the loop
   * would go on counting.
   */
  lemma NextRowContinues(daily: DailyTable, rows: seq<DailyStat>, today: int, streak: nat)
    requires StoredRows(daily, rows) && NewestFirst(rows) && |rows| <= StreakWindow
    requires forall d :: d in daily ==> d <= today
    requires BreakDay(daily, today - streak)
    requires LeavesOutOlder(daily, rows, StreakWindow)
    requires streak < StreakWindow && streak <= |rows|
    requires forall j :: 0 <= j < streak ==> rows[j].statDate == today - j
    ensures streak < |rows|
    ensures rows[streak].statDate == today - streak && rows[streak].breaksDone > 0
  {
    var x := today - streak;
    forall i | 0 <= i < streak && i < |rows|
      ensures rows[i].statDate > x
    {
      assert rows[i].statDate == today - i;
    }
    NoDaySkipped(rows, StreakWindow, x, streak);
    if streak > 0 {
      assert rows[streak - 1].statDate > rows[streak].statDate;
    }
    assert rows[streak].statDate == x;
  }

  /**
   * A row dated after today (a clock set back, or `add_screen_minutes`
   * with a future day) becomes the newest row, so the streak is 0 however
   * many breaks the preceding days have.
   */
  lemma FutureRowEndsStreak(daily: DailyTable, today: int, future: int, streak: nat)
    requires KeyedByDate(daily)
    requires future in daily && future > today
    requires IsStreak(NewestRows(daily, StreakWindow), today, streak)
    ensures streak == 0
  {
    var rows := NewestRows(daily, StreakWindow);
    var ds := DatesOf(rows);
    if future in ds {
      var k :| 0 <= k < |ds| && ds[k] == future;
      assert rows[0].statDate >= rows[k].statDate;
    } else {
      NewestRowsLeaveOutOlder(daily, StreakWindow, future);
      assert rows[0].statDate >= rows[StreakWindow - 1].statDate;
    }
  }

  // ------------------------------------------------------------------
  // All-time total
  // ------------------------------------------------------------------

  /** The screen minutes of the days `s`, summed oldest first. */
  function SumMinutes(daily: DailyTable, s: set<int>): (r: int)
    requires s <= daily.Keys
    ensures s == {} ==> r == 0
    ensures (forall d :: d in s ==> daily[d].screenMinutes >= 0) ==> r >= 0
    decreases s
  {
    if s == {} then 0
    else
      var d := Days.Earliest(s);
      daily[d].screenMinutes + SumMinutes(daily, s - {d})
  }

  /**
   * `get_all_time_total_hours()` before the division by 60:
   * `SELECT SUM(screen_minutes)`, 0 for an empty table or a failed query.
   */
  function TotalScreenMinutes(daily: DailyTable, storageUp: bool): (r: int)
    ensures !storageUp || daily == map[] ==> r == 0
    ensures (forall d :: d in daily ==> daily[d].screenMinutes >= 0) ==> r >= 0
  {
    if storageUp then SumMinutes(daily, daily.Keys) else 0
  }

  /** The sum does not depend on which day is taken out first. */
  lemma {:induction false} SumWithout(daily: DailyTable, s: set<int>, x: int)
    requires s <= daily.Keys && x in s
    ensures SumMinutes(daily, s) == daily[x].screenMinutes + SumMinutes(daily, s - {x})
    decreases s
  {
    var d := Days.Earliest(s);
    if d != x {
      SumWithout(daily, s - {d}, x);
      assert s - {d} - {x} == s - {x} - {d};
      var e := Days.Earliest(s - {x});
      assert d in s - {x};
      assert e <= d && d <= e;
    }
  }

  /** Only the screen minutes of the summed days matter. */
  lemma {:induction false} SumAgrees(a: DailyTable, b: DailyTable, s: set<int>)
    requires s <= a.Keys && s <= b.Keys
    requires forall d :: d in s ==> a[d].screenMinutes == b[d].screenMinutes
    ensures SumMinutes(a, s) == SumMinutes(b, s)
    decreases s
  {
    if s != {} {
      SumAgrees(a, b, s - {Days.Earliest(s)});
    }
  }

  /**
   * Every upsert moves the all-time total by exactly what it adds to
   * `screen_minutes`: `n` for `add_screen_minutes(n)`, 0 for the break and
   * posture counters.
   */
  lemma TotalAfterUpsert(daily: DailyTable, day: int, c: Counter, n: int)
    requires KeyedByDate(daily)
    ensures TotalScreenMinutes(Upsert(daily, day, c, n), true)
         == TotalScreenMinutes(daily, true) + (if c == ScreenMinutes then n else 0)
  {
    var r := Upsert(daily, day, c, n);
    var added := if c == ScreenMinutes then n else 0;
    assert r[day].screenMinutes == RowOrEmpty(daily, day).screenMinutes + added by {
      assert Count(r[day], ScreenMinutes) == Count(RowOrEmpty(daily, day), ScreenMinutes) + added;
    }
    var rest := daily.Keys - {day};
    SumWithout(r, r.Keys, day);
    assert r.Keys - {day} == rest;
    SumAgrees(r, daily, rest);
    if day in daily {
      SumWithout(daily, daily.Keys, day);
    } else {
      assert rest == daily.Keys;
    }
  }

  /**
   * `add_screen_minutes(0)` on a day without a row still inserts an
   * all-zero row; when that day is in the weekly window the weekly list
   * grows by one.
   */
  lemma ZeroMinutesAddsRow(daily: DailyTable, day: int, today: int)
    requires KeyedByDate(daily)
    requires day !in daily
    ensures Upsert(daily, day, ScreenMinutes, 0)[day] == EmptyDay(day)
    ensures day >= today - 6 ==>
      |WeeklyStats(Upsert(daily, day, ScreenMinutes, 0), today, true)| == |WeeklyStats(daily, today, true)| + 1
  {
    var r := Upsert(daily, day, ScreenMinutes, 0);
    if day >= today - 6 {
      assert WeekWindow(r, today) == WeekWindow(daily, today) + {day};
    }
  }
}
