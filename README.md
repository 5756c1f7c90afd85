# NeuroShield Eye: break, posture, settings and analytics core in Dafny

This project models the four non-UI components of NeuroShield Eye, a
Windows eye-health utility, and proves properties about them.

- **Analytics store** (`database.dfy`, module `Database`). This is the
  SQLite layer of `database_manager.py`.
  - `daily_stats` is a map from day number to its row. The map key is the
    unique `stat_date`.
  - `break_events` and `posture_events` are sequences in rowid order.
  - The AUTOINCREMENT counters are fields of the class.
  - Each Python call runs in one transaction on its own connection. A
    storage failure therefore makes the whole call do nothing: that is the
    `storageUp` parameter.
  - The clock (`datetime.now()`, `date.today()`) is passed in as `now` and
    `today`. `Env` bundles the three.
  - The streak loop of `get_break_streak` is proved against a
    row-order-independent definition of the streak (`DayRun`).
- **Configuration store** (`settings.dfy`, module `Settings`). This is
  `settings_manager.py`. A configuration is a JSON object of sections. The
  getters, the in-memory `set` and the recursive deep merge are modelled.
  The manager keeps the defaults, the live configuration and the contents
  of the user file, which `save` writes and `_load` reads back.
- **Work/break cycle** (`breaks.dfy`, module `Breaks`). This is
  `break_timer.py`.
  - `BreakScreen` and `BreakTimer` are classes.
  - Each QTimer is an `active` flag, and each of its timeouts is a method
    call (`OnWorkTick`, `OnBreakTick`).
  - The Qt signals the timer emits are appended to `signals`.
  - The `MM:SS` countdown label is proved to read back as the clamped
    number of seconds.
- **Posture reminder** (`posture.dfy`, module `Posture`). This is
  `posture_reminder.py`: the enable/disable state machine, the interval
  timer armed from the settings, the popup's placement and its single-shot
  auto-dismiss, and the invariant that at most one popup is on screen.

`days.dfy` (module `Days`) holds the ordering facts about sets of day
numbers that the queries need. `wrappers.dfy` holds `Option`.

The model follows the code, including these behaviours a reader may not
expect:
- `get` raises TypeError when a section holds a scalar. Only KeyError is
  caught, so `get` does not always fall back (`Settings.Get`).
- `add_screen_minutes(0)` on a day without a row inserts an all-zero row
  (`Database.ZeroMinutesAddsRow`).
- A dictionary in the user file under a default that is a scalar is stored
  whole, unknown nested keys included (`Settings.ObjectOverScalarKept`).
- A `daily_stats` row dated after today makes the streak 0
  (`Database.FutureRowEndsStreak`).
- After a break ends, work resumes only if the timer is still running.
- `stop()` and a `trigger_break_now()` during a break leave that break's
  event open. It is never recorded as ended.

## Model

| member | source | states |
|---|---|---|
| Database.Upsert | database_manager.py:90-103 | The row for the day exists afterwards. The chosen counter grows by `n` from its stored value, or from 0 when the row was absent. The other counters keep their stored values, or 0. Every other day is untouched, and each row stays keyed by its own date. |
| Database.Closed | database_manager.py:131-134 | `UPDATE ... WHERE id = ?` sets end time and completion on exactly the events with that id. Ids, start times and types are kept, and every other event is unchanged. |
| Database.ClosedUnknownId | database_manager.py:131-134 | An id that no event carries (such as 0 after a failed start) leaves the events unchanged. |
| Database.DatabaseManager.constructor | database_manager.py:39-85 | `CREATE TABLE IF NOT EXISTS` keeps the tables and id counters the file already holds (all empty on the first run). The store invariant holds from the start. |
| Database.DatabaseManager.AddScreenMinutes | database_manager.py:90-105 | With storage up, the daily table becomes the upsert of `screen_minutes` for the given day (today when none is given). With storage down, nothing changes. Events are untouched either way. |
| Database.DatabaseManager.RecordBreakStart | database_manager.py:111-123 | With storage up, one open event (`end_time` null, not completed, the given type) is appended under a fresh id. That id is larger than every earlier id and is returned. With storage down, the result is 0 and nothing changes. The daily table is untouched. |
| Database.DatabaseManager.RecordBreakEnd | database_manager.py:125-156 | With storage up, the events with that id are closed. Today's `breaks_done` (completed) or `breaks_missed` (not completed) rises by exactly 1, whether or not any event has that id. With storage down, nothing changes. |
| Database.DatabaseManager.RecordPostureAlert | database_manager.py:162-181 | With storage up, exactly one acknowledged posture event is appended with the next id, and today's `posture_alerts` rises by 1. With storage down, nothing changes. |
| Database.DatabaseManager.GetBreakStreak | database_manager.py:222-249 | The result is at most 30. With storage up, it is the point where the loop stops over the 30 newest rows. With storage down, it is 0. |
| Database.CountStreak | database_manager.py:237-246 | The loop counts the longest prefix of the rows dated today, today-1, ... that each have `breaks_done > 0`. The next row, if any, breaks the sequence. |
| Database.StreakIsUnique | database_manager.py:239-245 | The loop's stopping point is determined by the rows, so the streak predicate is a function. |
| Database.DayRun | database_manager.py:222-225 | The streak as the docstring of `get_break_streak` states it: the number of consecutive days ending today, at most `limit`, that each have a completed break. The day just before the run does not. |
| Database.StreakCountsDays | database_manager.py:222-249 | When no row is dated after today, the loop's result equals the number of consecutive days ending today with a completed break, capped at 30. A missing day ends the streak. |
| Database.FutureRowEndsStreak | database_manager.py:228-245 | A stored row dated after today becomes the newest row, so the streak is 0. |
| Database.NewestRows | database_manager.py:228-235 | `ORDER BY stat_date DESC LIMIT 30` returns stored rows with strictly descending dates, `min(limit, rows)` of them. |
| Database.NewestRowsLeaveOutOlder | database_manager.py:228-235 | A stored day that the query leaves out is older than every returned row, and it is left out only because the limit is reached. |
| Database.TodayStats | database_manager.py:187-205 | Always a record dated today: the stored row when present and storage is up, otherwise all four counters 0. |
| Database.WeeklyStats | database_manager.py:207-220 | The result is exactly the stored rows dated today-6 or later, with no upper bound. Dates strictly ascend and missing days are absent. With storage down, it is empty. |
| Database.TotalScreenMinutes | database_manager.py:251-262 | `SELECT SUM(screen_minutes)`, kept in minutes. It is 0 for an empty table (SQL NULL) or a failed query, and never negative when no day has negative minutes. |
| Database.TotalAfterUpsert | database_manager.py:251-259 | The all-time minutes total moves by exactly the minutes an upsert adds: `n` for screen minutes, 0 for the other counters. |
| Database.ZeroMinutesAddsRow | database_manager.py:90-103 | `add_screen_minutes(0)` on a day without a row inserts an all-zero row. The weekly list grows by one when that day is in its window. |
| Settings.Get | settings_manager.py:62-68 | `get` returns the stored value when the section and key exist, and the fallback when the section or key is missing. It raises TypeError exactly when the section holds a scalar. |
| Settings.SetEntry | settings_manager.py:70-76 | `set` creates a missing section. Afterwards `get` of that entry yields the value, every other `get` is as before, and every other top-level entry is unchanged. It raises TypeError exactly when the section holds a scalar. |
| Settings.GetSection | settings_manager.py:78-81 | A missing section or the empty string gives an empty map. An object gives its entries, which agree with `get`. Other strings raise ValueError, and booleans and integers raise TypeError. |
| Settings.Merged | settings_manager.py:129-138 | The merge result has exactly the keys of the base. |
| Settings.DeepMerge | settings_manager.py:129-138 | The loop over the overlay's keys, with recursion into nested objects, computes `Merged`. |
| Settings.MergeConforms | settings_manager.py:129-138 | The merge never adds a key absent from the base, at any level where the base holds an object. |
| Settings.ObjectOverScalarKept | settings_manager.py:135-138 | An object in the overlay under a scalar in the base replaces it whole. |
| Settings.MergeSelf | settings_manager.py:117-124 | Merging the defaults over a copy of themselves gives the defaults. |
| Settings.ReloadStable | settings_manager.py:104-127 | Loading again after saving a loaded configuration gives the same configuration. |
| Settings.SetSurvivesReload | settings_manager.py:129-134 | `set; save; reload; get` yields the set scalar back if and only if the defaults have the section and, when it is an object, the key. |
| Settings.SettingsManager.constructor | settings_manager.py:51-56 | The manager loads at once from the given files. |
| Settings.SettingsManager.Load | settings_manager.py:104-127 | The defaults are the parsed file, or empty when missing or malformed. The configuration is the defaults merged with a readable user file, and exactly the defaults otherwise. |
| Settings.SettingsManager.Set | settings_manager.py:70-76 | The configuration becomes the `set` result, or is unchanged where Python raises. The defaults are never changed. |
| Settings.SettingsManager.Save | settings_manager.py:83-91 | A writable file receives the configuration. On an OSError nothing changes. |
| Settings.SettingsManager.ResetToDefaults | settings_manager.py:93-98 | The configuration becomes the defaults, which are unchanged, and is saved. |
| Breaks.FormatTime | break_timer.py:151-154 | The label reads back as `max(seconds, 0)` seconds, with two-digit seconds below 60 and at least two minute digits. Negative input shows `00:00`, and below 100 minutes the label is five characters. A longer label has no leading zero. |
| Breaks.Pad2 | break_timer.py:154 | `:02d`: at least two decimal digits denoting `n`, exactly two below 100, with no leading zero from 10 on. |
| Breaks.DecimalRoundTrip | break_timer.py:154 | The decimal digits of `n` denote `n`. |
| Breaks.Mode | break_timer.py:227-228 | The stored mode, or "20-20-20" when none is stored. |
| Breaks.Forced | break_timer.py:256 | The truth value of the stored `forced_break`, or false when none is stored. |
| Breaks.WorkSeconds | break_timer.py:230-235 | Whole minutes: `work_interval_minutes` in mode 20-20-20 and `custom_work_minutes` in any other mode. |
| Breaks.BreakSeconds | break_timer.py:237-242 | `break_duration_seconds` as given in mode 20-20-20, and whole minutes of `custom_break_minutes` in any other mode. |
| Breaks.DefaultDurations | break_timer.py:227-242 | Without stored settings the cycle is 1200 s of work and 20 s of break, not forced. With only another mode set it is 2700 s and 300 s. |
| Breaks.BreakScreen.constructor | break_timer.py:50-65 | A hidden screen with the given duration and forced flag. The countdown is full, the label is formatted, and the ticker is stopped. |
| Breaks.BreakScreen.Start | break_timer.py:127-136 | Shown, with the countdown running and nothing else changed. |
| Breaks.BreakScreen.Tick | break_timer.py:138-144 | One second less and the label updated. It dismisses, stops and hides exactly when the countdown is at or below 0. |
| Breaks.BreakScreen.Skip | break_timer.py:146-149 | Stopped and hidden, with the countdown left where it was. |
| Breaks.BreakScreen.Hide | break_timer.py:208-209 | Hidden, with nothing else changed. |
| Breaks.BreakTimer.constructor | break_timer.py:175-189 | Idle, with the remaining work 0, the break id 0 and no signals. |
| Breaks.BreakTimer.Start | break_timer.py:195-202 | While running, nothing changes. Otherwise it is running, with the countdown set to the work seconds and the work timer active. |
| Breaks.BreakTimer.Stop | break_timer.py:204-211 | Idle. A screen still up is hidden and dropped, and its break is not recorded as ended. |
| Breaks.BreakTimer.TriggerBreakNow | break_timer.py:213-218 | Starts if idle, stops the work timer and begins a break. During a break, the current id and screen are replaced. |
| Breaks.BreakTimer.OnWorkTick | break_timer.py:247-253 | One second less, emitted. Above 0 nothing else changes; at or below 0 the work timer stops and a break begins. |
| Breaks.BreakTimer.StartBreak | break_timer.py:255-274 | Reads the forced flag, duration and mode at this moment. Records one break start under the mode and keeps its id, shows a fresh screen counting down, and emits `break_started`. |
| Breaks.BreakTimer.OnBreakDismissed | break_timer.py:276-290 | Completed exactly when a screen is current and its countdown reached 0. Records one break end under the current id, clears the screen and emits `break_ended`. Restarts the work countdown only if running. |
| Breaks.BreakTimer.OnBreakTick | break_timer.py:138-144 | A break tick above 1 second changes only the screen. The last tick records a completed break end and resumes work. |
| Breaks.BreakTimer.SkipBreak | break_timer.py:146-149 | The skip button on an unforced screen ends the break. It counts as completed only if the countdown had already reached 0. |
| Breaks.WorkUntilBreak | break_timer.py:247-253 | From W >= 1 seconds left, W ticks emit W-1, ..., 0 and then exactly one `break_started`, leaving the timer on a break. |
| Breaks.BreakUntilDone | break_timer.py:276-290 | A break left alone until its countdown ends records one completed break end, emits `break_ended(True)` once, and resumes work. |
| Posture.PopupPosition | posture_reminder.py:96-106 | The popup's last column and row are 17 pixels before those of the available geometry. On a geometry of at least 337 x 137 pixels, the popup lies inside it. |
| Posture.IntervalMs | posture_reminder.py:162-164 | The timer period is `int(interval_minutes)` whole minutes in milliseconds. |
| Posture.Message | posture_reminder.py:167-170 | The stored message, or the built-in one when none is stored. |
| Posture.DefaultInterval | posture_reminder.py:162-170 | Without posture settings, the reminder fires every 1800000 ms with the built-in message. The text "45" gives 2700000 ms. |
| Posture.PosturePopup.constructor | posture_reminder.py:27-43 | A hidden popup with the message and display time, placed at the corner position when there is a screen. The dismiss timer is idle. |
| Posture.PosturePopup.ShowPopup | posture_reminder.py:108-110 | Shown, with the single-shot timer armed at `display_seconds * 1000` ms. |
| Posture.PosturePopup.Close | posture_reminder.py:86 | Hidden, with the timer left as it was. |
| Posture.PosturePopup.AutoDismiss | posture_reminder.py:41-43 | The single-shot timeout fires once and closes the popup. |
| Posture.PostureReminder.constructor | posture_reminder.py:119-128 | Disabled, with no popup. |
| Posture.PostureReminder.IsEnabled | posture_reminder.py:150-151 | Whether reminders are on, which is exactly whether the interval timer runs. |
| Posture.PostureReminder.RestartTimer | posture_reminder.py:162-164 | The interval timer is armed from the current setting. |
| Posture.PostureReminder.Start | posture_reminder.py:130-136 | Nothing changes when already enabled. Otherwise it is enabled and the timer is armed from the setting. |
| Posture.PostureReminder.Stop | posture_reminder.py:138-141 | Disabled with the timer stopped, whatever the state before, so a second call changes nothing. |
| Posture.PostureReminder.Toggle | posture_reminder.py:143-148 | Flips `enabled` and returns the new value. Enabling arms the timer. |
| Posture.PostureReminder.UpdateInterval | posture_reminder.py:153-156 | Re-arms the timer from the current setting only when enabled. When disabled, nothing changes. |
| Posture.PostureReminder.ShowReminder | posture_reminder.py:166-177 | The previous popup is closed. A fresh one with the current message is placed, shown and set to close after 8 s. Exactly one posture alert is recorded. At most one popup stays on screen. |

## Left out

- The SQLite engine, SQL text, the WAL and foreign-key pragmas, file paths and JSON parsing are replaced by in-memory state. Dates are day numbers, whose order matches the order of ISO `YYYY-MM-DD` text.
- `get_all_time_total_hours` is modelled as the integer minutes sum (`TotalScreenMinutes`). The division by 60 and `round(..., 1)` are floating point.
- Database.DailyStat: the `id` column of `daily_stats` (an AUTOINCREMENT key no operation reads) is not a field. `get_today_stats` and `get_weekly_stats` return it with a stored row, but the all-zero fallback has no `id`, and the model does not show this difference.
- Logging and the `threading.RLock` of the settings manager concern I/O and concurrency.
- `winsound` playback and the sound-file lookup are foreign calls. The `sound_enabled` setting only chooses whether to play.
- Widget construction, styling, painting and the full-screen geometry of `BreakScreen.start` are UI with no state the core reads.
- JSON floats, arrays and `null` (Python `None`) are not among the modelled values.
- Settings.SettingsManager.Load: only the exceptions `_load` catches are modelled (FileNotFoundError and JSONDecodeError for the defaults, OSError and JSONDecodeError for the user file). A file that is not valid UTF-8 raises UnicodeDecodeError, and an unreadable defaults file raises PermissionError. Both propagate out of `SettingsManager()`, and the model has no such outcome.
- A user file whose top level is not an object makes `_deep_merge` raise AttributeError. The model only takes objects.
- A write that fails halfway through `save` is not modelled: the file is either written whole or left as it was.
- Python `int()` is modelled on integers, booleans and plain digit strings. Signs, surrounding whitespace and underscores in strings are not modelled.
- Breaks.TimerSettingsTyped: the `break_timer` section must be an object or missing. A section that holds a scalar, which the merge stores whole, makes `get` raise TypeError in `_get_mode` and `_start_break`, and the model excludes it.
- Breaks.TimerSettingsTyped: `mode` must be text, because the model stores it as the break type. A non-text mode compares unequal to "20-20-20" in Python, which the model does not follow.
- Breaks.TimerSettingsTyped: the two durations the mode reads must be integers or booleans. On a string, `* 60` repeats the text and on an object it raises, and neither is modelled.
- Posture.IntervalTyped: the posture interval must be convertible by `int()`. This is required only by the members that read it (`Start`, `Toggle`, `UpdateInterval`, `RestartTimer`).
- Posture.MessageTyped: the message must be text. This is required only by `ShowReminder`, the one member that reads it.
- Posture.IntervalTyped, Posture.MessageTyped: the `posture` section must be an object or missing. A section that holds a scalar makes `get` raise TypeError in `_restart_timer` and `_show_reminder`, and the model excludes it.
- A negative or zero posture interval is passed to the timer as it is. What Qt does with it is not modelled.
- The nested objects shared between `get_section`'s shallow copy and the configuration are not modelled. Values are immutable, so changing the copy is not expressible.
- `_deep_merge` and `_load` update the configuration dictionary in place. The model rebuilds it as a new value, so aliasing of nested dictionaries is not captured.
- `BreakTimer.is_running` is a plain read of `running` and has no member.
- The settings-panel helper `custom_break_minutes = duration // 60 or 5` belongs to the settings UI and is not part of this model.
- `stop()` hides the `BreakScreen` it drops but does not stop its one-second ticker. `trigger_break_now()` during a break neither hides nor stops the screen it replaces. The model assumes PyQt deletes the parentless screen once the timer lets go of it, so its countdown never reaches the timer again. If the screen lived on, it would stay full-screen, and its ticks could still dismiss it and record an end under the current id.
- The signals of the screen and the popup (`dismissed`, the close button) are method calls made by the caller (`OnBreakTick`, `SkipBreak`, `Close`).
- Database.DatabaseManager.GetBreakStreak: states the loop's result over the 30 newest rows. Its meaning as a day count is proved separately for stores with no row dated after today (`StreakCountsDays`).
