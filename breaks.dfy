/**
 * The work/break cycle of break_timer.py.
 *
 * Each QTimer becomes an `active` flag and each of its timeouts an explicit
 * method call (`OnWorkTick`, `OnBreakTick`); the skip button is
 * `SkipBreak`.  The Qt signals the timer emits are appended to `signals`.
 * The timer reads its durations from the settings manager at the moment it
 * needs them and writes break events through the database manager.
 */
module Breaks {
  import opened Wrappers
  import opened Settings
  import Database

  // ------------------------------------------------------------------
  // The MM:SS countdown label
  // ------------------------------------------------------------------

  function DigitChar(d: nat): (c: char)
    requires d < 10
    ensures IsDigit(c) && DigitValue(c) == d
  {
    (('0' as int) + d) as char
  }

  /** `f"{n:d}"`: the decimal digits of `n`, without leading zeros. */
  function Decimal(n: nat): (r: string)
    ensures AllDigits(r) && |r| >= 1
    ensures |r| == 1 <==> n < 10
    ensures |r| > 1 ==> r[0] != '0'
    decreases n
  {
    if n < 10 then [DigitChar(n)] else Decimal(n / 10) + [DigitChar(n % 10)]
  }

  lemma {:induction false} DecimalRoundTrip(n: nat)
    ensures DecimalValue(Decimal(n)) == n
    decreases n
  {
    if n >= 10 {
      var r := Decimal(n);
      assert r[..|r| - 1] == Decimal(n / 10);
      DecimalRoundTrip(n / 10);
    }
  }

  /** `f"{n:02d}"`: the decimal digits of `n`, zero-padded to at least two. */
  function Pad2(n: nat): (r: string)
    ensures AllDigits(r) && |r| >= 2 && DecimalValue(r) == n
    ensures n < 100 ==> |r| == 2
    ensures n >= 10 ==> r[0] != '0'
  {
    DecimalRoundTrip(n);
    if n < 10 then
      var r := "0" + Decimal(n);
      assert r[..1] == "0";
      r
    else Decimal(n)
  }

  /**
   * Reading an `MM:SS` label back: digits, a colon, exactly two digits
   * below 60; the seconds it shows, or None for any other text.
   */
  function ClockSeconds(text: string): Option<nat> {
    if |text| >= 5 && text[|text| - 3] == ':'
       && AllDigits(text[..|text| - 3]) && AllDigits(text[|text| - 2..])
       && DecimalValue(text[|text| - 2..]) < 60
    then Some(60 * DecimalValue(text[..|text| - 3]) + DecimalValue(text[|text| - 2..]))
    else None
  }

  /**
   * `BreakScreen._format_time(seconds)`: `divmod(max(seconds, 0), 60)` as
   * `MM:SS`.  The label reads back as the seconds, clamped at 0; any
   * negative input shows "00:00".
   */
  function FormatTime(seconds: int): (r: string)
    ensures ClockSeconds(r) == Some(if seconds < 0 then 0 else seconds)
    ensures seconds <= 0 ==> r == "00:00"
    ensures seconds < 6000 ==> |r| == 5
    ensures |r| == 5 || r[0] != '0'
  {
    var t: nat := if seconds < 0 then 0 else seconds;
    var mm := Pad2(t / 60);
    var ss := Pad2(t % 60);
    MinutesAndSeconds(t);
    ClockOfParts(mm, ss);
    mm + ":" + ss
  }

  /** `divmod(t, 60)` puts the seconds below 60 and, below 6000, the minutes below 100. */
  lemma MinutesAndSeconds(t: nat)
    ensures t % 60 < 60 && 60 * (t / 60) + t % 60 == t
    ensures t < 6000 ==> t / 60 < 100
    ensures t == 0 ==> t / 60 == 0 && t % 60 == 0
  {
  }

  /** `MM:SS` built from at least two minute digits and two second digits reads back as its seconds. */
  lemma ClockOfParts(mm: string, ss: string)
    requires AllDigits(mm) && |mm| >= 2
    requires AllDigits(ss) && |ss| == 2 && DecimalValue(ss) < 60
    ensures ClockSeconds(mm + ":" + ss) == Some(60 * DecimalValue(mm) + DecimalValue(ss))
  {
    var r := mm + ":" + ss;
    assert |r| - 3 == |mm| && r[|mm|] == ':';
    assert r[..|mm|] == mm;
    assert r[|mm| + 1..] == ss;
  }

  // ------------------------------------------------------------------
  // Timer settings
  // ------------------------------------------------------------------

  const TimerSection := "break_timer"
  const FixedMode := "20-20-20"

  /** Values Python multiplies and counts down as integers. */
  predicate IsNumber(v: Value) {
    v.I? || v.B?
  }

  function AsInt(v: Value): int
    requires IsNumber(v)
  {
    match v
    case I(i) => i
    case B(b) => if b then 1 else 0
  }

  /** Python's truth value of a JSON value. */
  function Truthy(v: Value): bool {
    match v
    case B(b) => b
    case I(i) => i != 0
    case S(s) => s != ""
    case D(m) => m != map[]
  }

  /**
   * The settings the timer reads have types its arithmetic accepts: the
   * mode is text, and the two durations that mode reads are numbers.
   */
  predicate TimerSettingsTyped(cfg: Config) {
    && Readable(cfg, TimerSection)
    && Lookup(cfg, TimerSection, "mode", S(FixedMode)).S?
    && if Lookup(cfg, TimerSection, "mode", S(FixedMode)) == S(FixedMode) then
         && IsNumber(Lookup(cfg, TimerSection, "work_interval_minutes", I(20)))
         && IsNumber(Lookup(cfg, TimerSection, "break_duration_seconds", I(20)))
       else
         && IsNumber(Lookup(cfg, TimerSection, "custom_work_minutes", I(45)))
         && IsNumber(Lookup(cfg, TimerSection, "custom_break_minutes", I(5)))
  }

  /** `_get_mode()`: the stored mode, "20-20-20" when none is stored. */
  function Mode(cfg: Config): (r: string)
    requires TimerSettingsTyped(cfg)
    ensures TimerSection !in cfg || "mode" !in cfg[TimerSection].m ==> r == FixedMode
    ensures TimerSection in cfg && "mode" in cfg[TimerSection].m ==> cfg[TimerSection].m["mode"] == S(r)
  {
    Lookup(cfg, TimerSection, "mode", S(FixedMode)).s
  }

  /**
   * `_get_work_seconds()`: whole minutes, from `work_interval_minutes` in
   * the 20-20-20 mode and from `custom_work_minutes` in any other.
   */
  function WorkSeconds(cfg: Config): (r: int)
    requires TimerSettingsTyped(cfg)
    ensures r % 60 == 0
    ensures r / 60 == AsInt(if Mode(cfg) == FixedMode then Lookup(cfg, TimerSection, "work_interval_minutes", I(20))
                            else Lookup(cfg, TimerSection, "custom_work_minutes", I(45)))
  {
    if Mode(cfg) == FixedMode then AsInt(Lookup(cfg, TimerSection, "work_interval_minutes", I(20))) * 60
    else AsInt(Lookup(cfg, TimerSection, "custom_work_minutes", I(45))) * 60
  }

  /**
   * `_get_break_seconds()`: `break_duration_seconds` as given in the
   * 20-20-20 mode, whole minutes of `custom_break_minutes` in any other.
   */
  function BreakSeconds(cfg: Config): (r: int)
    requires TimerSettingsTyped(cfg)
    ensures Mode(cfg) == FixedMode ==> r == AsInt(Lookup(cfg, TimerSection, "break_duration_seconds", I(20)))
    ensures Mode(cfg) != FixedMode ==> r % 60 == 0 && r / 60 == AsInt(Lookup(cfg, TimerSection, "custom_break_minutes", I(5)))
  {
    if Mode(cfg) == FixedMode then AsInt(Lookup(cfg, TimerSection, "break_duration_seconds", I(20)))
    else AsInt(Lookup(cfg, TimerSection, "custom_break_minutes", I(5))) * 60
  }

  /** `forced_break`, by its truth value; False when missing. */
  function Forced(cfg: Config): (r: bool)
    requires Readable(cfg, TimerSection)
    ensures TimerSection !in cfg || "forced_break" !in cfg[TimerSection].m ==> !r
    ensures TimerSection in cfg && "forced_break" in cfg[TimerSection].m ==>
      (r <==> Truthy(cfg[TimerSection].m["forced_break"]))
  {
    Truthy(Lookup(cfg, TimerSection, "forced_break", B(false)))
  }

  /**
   * With no `break_timer` settings stored, the cycle is 20-20-20: 20
   * minutes of work, 20 seconds of break, not forced; with only the mode
   * set to anything else it is 45 minutes of work and 5 minutes of break.
   */
  lemma DefaultDurations(cfg: Config, mode: string)
    requires cfg == map[] || cfg == map[TimerSection := D(map[])]
    ensures TimerSettingsTyped(cfg) && Mode(cfg) == FixedMode
    ensures WorkSeconds(cfg) == 1200 && BreakSeconds(cfg) == 20 && !Forced(cfg)
    ensures mode != FixedMode ==>
      var custom := map[TimerSection := D(map["mode" := S(mode)])];
      TimerSettingsTyped(custom) && Mode(custom) == mode
      && WorkSeconds(custom) == 2700 && BreakSeconds(custom) == 300 && !Forced(custom)
  {
    var custom := map[TimerSection := D(map["mode" := S(mode)])];
    assert "mode" != "custom_work_minutes" && "mode" != "custom_break_minutes" && "mode" != "forced_break";
    assert "mode" !in custom[TimerSection].m.Keys - {"mode"};
  }

  // ------------------------------------------------------------------
  // The break screen
  // ------------------------------------------------------------------

  /** The signals `BreakTimer` emits, in order. */
  datatype Signal = WorkTick(remaining: int) | BreakStarted | BreakEnded(completed: bool)

  /** `BreakScreen`: the full-screen overlay and its one-second countdown. */
  class BreakScreen {
    const duration: int
    const forced: bool
    var remaining: int
    var caption: string
    var tickerActive: bool
    var visible: bool

    /** `BreakScreen(duration_seconds, forced)`: built hidden, countdown not running. */
    constructor (duration: int, forced: bool)
      ensures this.duration == duration && this.forced == forced
      ensures remaining == duration && caption == FormatTime(duration)
      ensures !tickerActive && !visible
    {
      this.duration := duration;
      this.forced := forced;
      remaining := duration;
      caption := FormatTime(duration);
      tickerActive := false;
      visible := false;
    }

    /** `start()`: shown full screen and counting down. */
    method Start()
      modifies this
      ensures visible && tickerActive
      ensures remaining == old(remaining) && caption == old(caption)
    {
      visible := true;
      tickerActive := true;
    }

    /**
     * `_tick()`: one second less, shown on the label; at 0 or below the
     * countdown stops, `dismissed` is emitted and the overlay hides.
     */
    method Tick() returns (dismissed: bool)
      requires tickerActive
      modifies this
      ensures remaining == old(remaining) - 1 && caption == FormatTime(remaining)
      ensures dismissed <==> remaining <= 0
      ensures tickerActive == !dismissed
      ensures visible == (old(visible) && !dismissed)
    {
      remaining := remaining - 1;
      caption := FormatTime(remaining);
      dismissed := remaining <= 0;
      if dismissed {
        tickerActive := false;
        visible := false;
      }
    }

    /** `_skip()`: the countdown stops where it is, `dismissed` is emitted, the overlay hides. */
    method Skip()
      modifies this
      ensures !tickerActive && !visible
      ensures remaining == old(remaining) && caption == old(caption)
    {
      tickerActive := false;
      visible := false;
    }

    /** `hide()`. */
    method Hide()
      modifies this
      ensures !visible
      ensures tickerActive == old(tickerActive) && remaining == old(remaining) && caption == old(caption)
    {
      visible := false;
    }
  }

  // ------------------------------------------------------------------
  // The timer
  // ------------------------------------------------------------------

  /**
   * `BreakTimer`.  A screen that the timer drops (on `stop`, or when
   * `trigger_break_now` replaces it) has no other owner and is destroyed
   * with its countdown, so only the current screen can dismiss a break.
   */
  class BreakTimer {
    const settings: SettingsManager
    const db: Database.DatabaseManager
    var running: bool
    var workActive: bool
    var workRemaining: int
    var screen: BreakScreen?
    var breakId: int
    var signals: seq<Signal>

    /** Not started, or stopped. */
    ghost predicate Idle()
      reads this
    {
      !running && !workActive && screen == null
    }

    /** Counting down the work interval. */
    ghost predicate Working()
      reads this
    {
      running && workActive && screen == null
    }

    /** A break screen is up and counting down. */
    ghost predicate OnBreak()
      reads this, screen
    {
      running && !workActive && screen != null && screen.tickerActive && screen.visible
    }

    ghost predicate Valid()
      reads this, db, screen
    {
      db.Valid() && (Idle() || Working() || OnBreak())
    }

    /**
     * The state `_start_break` leaves: a fresh screen with the break
     * duration and forced flag read from the settings at this moment,
     * counting down; the break's event recorded under the current mode and
     * its id (0 when storage is down) kept.
     */
    twostate predicate BreakBegun(env: Database.Env)
      reads this, db, screen, settings
    {
      && OnBreak()
      && fresh(screen)
      && TimerSettingsTyped(settings.config)
      && screen.duration == BreakSeconds(settings.config)
      && screen.remaining == screen.duration && screen.caption == FormatTime(screen.duration)
      && screen.forced == Forced(settings.config)
      && db.BreakStartRecorded(breakId, Mode(settings.config), env.now, env.storageUp)
    }

    /** `BreakTimer(settings, db)`: idle. */
    constructor (settings: SettingsManager, db: Database.DatabaseManager)
      requires db.Valid()
      ensures Valid() && Idle()
      ensures this.settings == settings && this.db == db
      ensures workRemaining == 0 && breakId == 0 && signals == []
    {
      this.settings := settings;
      this.db := db;
      running := false;
      workActive := false;
      workRemaining := 0;
      screen := null;
      breakId := 0;
      signals := [];
    }

    /**
     * `start()`: nothing while running; otherwise running, with the work
     * countdown set from the settings and its timer active.
     */
    method Start()
      requires Valid() && TimerSettingsTyped(settings.config)
      modifies this
      ensures Valid()
      ensures old(running) ==> running == old(running) && workActive == old(workActive)
                               && workRemaining == old(workRemaining) && screen == old(screen)
      ensures !old(running) ==> Working() && workRemaining == WorkSeconds(settings.config)
      ensures breakId == old(breakId) && signals == old(signals)
    {
      if running {
        return;
      }
      running := true;
      workRemaining := WorkSeconds(settings.config);
      workActive := true;
    }

    /**
     * `stop()`: idle; a break screen still up is hidden and dropped, and
     * its break is NOT recorded as ended.
     */
    method Stop()
      requires Valid()
      modifies this, screen
      ensures Valid() && Idle()
      ensures old(screen) != null ==> !old(screen).visible
      ensures old(screen) != null ==>
        old(screen).tickerActive == old(screen.tickerActive) && old(screen).remaining == old(screen.remaining)
      ensures workRemaining == old(workRemaining) && breakId == old(breakId) && signals == old(signals)
    {
      running := false;
      workActive := false;
      if screen != null {
        screen.Hide();
        screen := null;
      }
    }

    /**
     * `trigger_break_now()`: starts if idle, stops the work countdown and
     * begins a break.  During a break the current screen and break id are
     * overwritten: that break is never recorded as ended.
     */
    method TriggerBreakNow(env: Database.Env)
      requires Valid() && TimerSettingsTyped(settings.config)
      modifies this, db
      ensures Valid() && BreakBegun(env)
      ensures old(running) ==> workRemaining == old(workRemaining)
      ensures !old(running) ==> workRemaining == WorkSeconds(settings.config)
      ensures signals == old(signals) + [BreakStarted]
    {
      if !running {
        Start();
      }
      workActive := false;
      StartBreak(env);
    }

    /**
     * `_on_work_tick()`: one second less, emitted; at 0 or below the work
     * countdown stops and a break begins.
     */
    method OnWorkTick(env: Database.Env)
      requires Valid() && Working() && TimerSettingsTyped(settings.config)
      modifies this, db
      ensures Valid()
      ensures workRemaining == old(workRemaining) - 1
      ensures workRemaining > 0 ==>
        Working() && signals == old(signals) + [WorkTick(workRemaining)]
        && breakId == old(breakId) && unchanged(db)
      ensures workRemaining <= 0 ==>
        BreakBegun(env) && signals == old(signals) + [WorkTick(workRemaining), BreakStarted]
    {
      workRemaining := workRemaining - 1;
      signals := signals + [WorkTick(workRemaining)];
      if workRemaining <= 0 {
        workActive := false;
        StartBreak(env);
      }
    }

    /** `_start_break()`. */
    method StartBreak(env: Database.Env)
      requires db.Valid() && running && !workActive && TimerSettingsTyped(settings.config)
      modifies this, db
      ensures Valid() && BreakBegun(env)
      ensures workRemaining == old(workRemaining)
      ensures signals == old(signals) + [BreakStarted]
    {
      var forced := Forced(settings.config);
      var duration := BreakSeconds(settings.config);
      var breakType := Mode(settings.config);
      breakId := db.RecordBreakStart(breakType, env.now, env.storageUp);
      var s := new BreakScreen(duration, forced);
      s.Start();
      screen := s;
      signals := signals + [BreakStarted];
    }

    /**
     * `_on_break_dismissed()`: the break counts as completed exactly when a
     * screen is current and its countdown reached 0; it is recorded as
     * ended under the current id, the screen is cleared, and the work
     * countdown restarts from the settings if the timer is running.
     */
    method OnBreakDismissed(env: Database.Env)
      requires db.Valid() && !workActive && TimerSettingsTyped(settings.config)
      modifies this, db
      ensures Valid()
      ensures db.BreakEndRecorded(old(breakId), old(screen) != null && old(screen).remaining <= 0,
                                  env.now, env.today, env.storageUp)
      ensures signals == old(signals) + [BreakEnded(old(screen) != null && old(screen).remaining <= 0)]
      ensures old(running) ==> Working() && workRemaining == WorkSeconds(settings.config)
      ensures !old(running) ==> Idle() && workRemaining == old(workRemaining)
      ensures breakId == old(breakId)
    {
      var completed := screen != null && screen.remaining <= 0;
      db.RecordBreakEnd(breakId, completed, env.now, env.today, env.storageUp);
      screen := null;
      signals := signals + [BreakEnded(completed)];
      if running {
        workRemaining := WorkSeconds(settings.config);
        workActive := true;
      }
    }

    /**
     * A second of the break countdown: at 0 the break ends completed and
     * work resumes; before that nothing else changes.
     */
    method OnBreakTick(env: Database.Env)
      requires Valid() && OnBreak() && TimerSettingsTyped(settings.config)
      modifies this, db, screen
      ensures Valid()
      ensures old(screen).remaining == old(screen.remaining) - 1
      ensures old(screen).caption == FormatTime(old(screen).remaining)
      ensures old(screen.remaining) > 1 ==>
        OnBreak() && screen == old(screen) && signals == old(signals)
        && workRemaining == old(workRemaining) && unchanged(db)
      ensures old(screen.remaining) <= 1 ==>
        Working() && !old(screen).visible && signals == old(signals) + [BreakEnded(true)]
        && db.BreakEndRecorded(old(breakId), true, env.now, env.today, env.storageUp)
        && workRemaining == WorkSeconds(settings.config)
      ensures breakId == old(breakId)
    {
      var dismissed := screen.Tick();
      if dismissed {
        OnBreakDismissed(env);
      }
    }

    /**
     * The skip button, present only on a screen that is not forced: the
     * break ends, completed only if the countdown had already reached 0.
     */
    method SkipBreak(env: Database.Env)
      requires Valid() && OnBreak() && !screen.forced && TimerSettingsTyped(settings.config)
      modifies this, db, screen
      ensures Valid() && Working()
      ensures !old(screen).visible && old(screen).remaining == old(screen.remaining)
      ensures db.BreakEndRecorded(old(breakId), old(screen.remaining) <= 0, env.now, env.today, env.storageUp)
      ensures signals == old(signals) + [BreakEnded(old(screen.remaining) <= 0)]
      ensures workRemaining == WorkSeconds(settings.config) && breakId == old(breakId)
    {
      screen.Skip();
      OnBreakDismissed(env);
    }
  }

  // ------------------------------------------------------------------
  // Whole cycles as the event loop delivers them
  // ------------------------------------------------------------------

  /** The work ticks emitted while counting down from `w`: w - 1, ..., 0. */
  function Countdown(w: nat): (r: seq<Signal>)
    ensures |r| == w
    ensures forall i :: 0 <= i < w ==> r[i] == WorkTick(w - 1 - i)
  {
    seq(w, i requires 0 <= i < w => WorkTick(w - 1 - i))
  }

  /**
   * From `w >= 1` seconds of work left, `w` ticks of the work timer emit
   * w - 1, ..., 0 and then exactly one break start, and leave the timer on
   * a break.
   */
  method WorkUntilBreak(t: BreakTimer, env: Database.Env) returns (w: nat)
    requires t.Valid() && t.Working() && t.workRemaining >= 1
    requires TimerSettingsTyped(t.settings.config)
    modifies t, t.db
    ensures w == old(t.workRemaining)
    ensures t.Valid() && t.OnBreak()
    ensures t.signals == old(t.signals) + Countdown(w) + [BreakStarted]
  {
    w := t.workRemaining;
    var k := 0;
    while t.workRemaining > 1
      invariant t.Valid() && t.Working()
      invariant 0 <= k < w && t.workRemaining == w - k
      invariant t.signals == old(t.signals) + Countdown(w)[..k]
      decreases t.workRemaining
    {
      t.OnWorkTick(env);
      assert t.workRemaining > 0;
      CountdownStep(old(t.signals), w, k);
      k := k + 1;
    }
    t.OnWorkTick(env);
    assert t.workRemaining == 0;
    CountdownEnd(old(t.signals), w);
  }

  /** One more work tick extends the emitted countdown by its next value. */
  lemma CountdownStep(before: seq<Signal>, w: nat, k: nat)
    requires k < w
    ensures before + Countdown(w)[..k] + [WorkTick(w - 1 - k)] == before + Countdown(w)[..k + 1]
  {
    assert Countdown(w)[..k + 1] == Countdown(w)[..k] + [WorkTick(w - 1 - k)];
  }

  /** The last work tick completes the countdown and starts the break. */
  lemma CountdownEnd(before: seq<Signal>, w: nat)
    requires w >= 1
    ensures before + Countdown(w)[..w - 1] + [WorkTick(0), BreakStarted]
         == before + Countdown(w) + [BreakStarted]
  {
    assert Countdown(w)[..w - 1] + [WorkTick(0)] == Countdown(w);
  }

  /**
   * A break whose countdown shows `b >= 1` seconds, left alone for `b`
   * ticks, ends completed: one completed break recorded for today, one
   * `break_ended(True)`, and work resumes.
   */
  method BreakUntilDone(t: BreakTimer, env: Database.Env)
    requires t.Valid() && t.OnBreak() && t.screen.remaining >= 1
    requires TimerSettingsTyped(t.settings.config)
    modifies t, t.db, t.screen
    ensures t.Valid() && t.Working()
    ensures t.signals == old(t.signals) + [BreakEnded(true)]
    ensures t.db.BreakEndRecorded(old(t.breakId), true, env.now, env.today, env.storageUp)
  {
    var s := t.screen;
    while s.remaining > 1
      invariant t.Valid() && t.OnBreak() && t.screen == s && s.remaining >= 1
      invariant t.signals == old(t.signals) && t.breakId == old(t.breakId)
      invariant t.db.daily == old(t.db.daily) && t.db.breakEvents == old(t.db.breakEvents)
      invariant t.db.lastBreakId == old(t.db.lastBreakId)
      invariant t.db.postureEvents == old(t.db.postureEvents) && t.db.lastPostureId == old(t.db.lastPostureId)
      decreases s.remaining
    {
      t.OnBreakTick(env);
    }
    t.OnBreakTick(env);
  }
}
