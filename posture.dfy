/**
 * The posture reminder of posture_reminder.py.
 *
 * The interval QTimer becomes `timerActive` and `intervalMs`, each of its
 * timeouts a call of `ShowReminder`; the popup's single-shot auto-dismiss
 * timer becomes `dismissActive` and `dismissMs`, its timeout a call of
 * `AutoDismiss`.  The primary screen's available geometry is passed in
 * (None when there is no application or no primary screen).
 */
module Posture {
  import opened Wrappers
  import opened Settings
  import Database

  // ------------------------------------------------------------------
  // Popup geometry
  // ------------------------------------------------------------------

  /** A Qt `QRect`: `right()` and `bottom()` are the last pixel column and row. */
  datatype Rect = Rect(left: int, top: int, width: int, height: int) {
    function Right(): int { left + width - 1 }
    function Bottom(): int { top + height - 1 }
  }

  datatype Point = Point(x: int, y: int)

  const PopupWidth: int := 320
  const PopupHeight: int := 120
  const DisplaySeconds: int := 8

  /**
   * `_position_popup()`: 16 px in from `right()` and `bottom()` of the
   * available geometry.  The popup's last pixel column and row land 17
   * pixels before the last column and row of the geometry (16 plus the
   * one `right()`/`bottom()` already leave out), and on a geometry of at
   * least 337 x 137 pixels the popup lies wholly inside it.
   */
  function PopupPosition(g: Rect): (p: Point)
    ensures g.Right() - (p.x + PopupWidth - 1) == 17
    ensures g.Bottom() - (p.y + PopupHeight - 1) == 17
    ensures g.width >= 337 ==> g.left <= p.x && p.x + PopupWidth - 1 <= g.Right()
    ensures g.height >= 137 ==> g.top <= p.y && p.y + PopupHeight - 1 <= g.Bottom()
  {
    Point(g.Right() - PopupWidth - 16, g.Bottom() - PopupHeight - 16)
  }

  // ------------------------------------------------------------------
  // Posture settings
  // ------------------------------------------------------------------

  const PostureSection := "posture"
  const DefaultMessage := "Check your posture! Sit up straight and relax your shoulders."

  /** Values `int()` turns into a whole number: integers, booleans and strings of decimal digits. */
  predicate IntConvertible(v: Value) {
    match v
    case I(_) => true
    case B(_) => true
    case S(s) => |s| >= 1 && AllDigits(s)
    case D(_) => false
  }

  /** Python's `int(v)` on those values. */
  function ToInt(v: Value): int
    requires IntConvertible(v)
  {
    match v
    case I(i) => i
    case B(b) => if b then 1 else 0
    case S(s) => DecimalValue(s)
  }

  /** The interval setting has a type `_restart_timer` accepts: one `int()` converts. */
  predicate IntervalTyped(cfg: Config) {
    && Readable(cfg, PostureSection)
    && IntConvertible(Lookup(cfg, PostureSection, "interval_minutes", I(30)))
  }

  /** The message setting has the type `_show_reminder` accepts: text. */
  predicate MessageTyped(cfg: Config) {
    && Readable(cfg, PostureSection)
    && Lookup(cfg, PostureSection, "message", S(DefaultMessage)).S?
  }

  /** `int(interval_min) * 60 * 1000`: the interval timer's period in milliseconds. */
  function IntervalMs(cfg: Config): (ms: int)
    requires IntervalTyped(cfg)
    ensures ms % 60000 == 0
    ensures ms / 60000 == ToInt(Lookup(cfg, PostureSection, "interval_minutes", I(30)))
  {
    ToInt(Lookup(cfg, PostureSection, "interval_minutes", I(30))) * 60 * 1000
  }

  /** The message `_show_reminder` reads: the stored text, the built-in one when none is stored. */
  function Message(cfg: Config): (r: string)
    requires MessageTyped(cfg)
    ensures PostureSection !in cfg || "message" !in cfg[PostureSection].m ==> r == DefaultMessage
    ensures PostureSection in cfg && "message" in cfg[PostureSection].m ==> cfg[PostureSection].m["message"] == S(r)
  {
    Lookup(cfg, PostureSection, "message", S(DefaultMessage)).s
  }

  /**
   * Without posture settings the reminder fires every 30 minutes with the
   * built-in message; an interval stored as the text "45" counts as 45
   * minutes.
   */
  lemma DefaultInterval(cfg: Config)
    requires PostureSection !in cfg
    ensures IntervalTyped(cfg) && MessageTyped(cfg)
    ensures IntervalMs(cfg) == 1800000 && Message(cfg) == DefaultMessage
    ensures var text := cfg[PostureSection := D(map["interval_minutes" := S("45")])];
      IntervalTyped(text) && IntervalMs(text) == 2700000
  {
    var text := cfg[PostureSection := D(map["interval_minutes" := S("45")])];
    assert DecimalValue("4") == 4 by {
      assert "4"[..0] == [];
    }
    assert "45"[..1] == "4";
    assert Lookup(text, PostureSection, "interval_minutes", I(30)) == S("45");
  }

  // ------------------------------------------------------------------
  // The popup
  // ------------------------------------------------------------------

  /** `PosturePopup`: the toast and its single-shot auto-dismiss timer. */
  class PosturePopup {
    const message: string
    const displaySeconds: int
    /** Where `_position_popup` moved it; None when there was no screen to place it on. */
    const position: Option<Point>
    var visible: bool
    var dismissActive: bool
    var dismissMs: int

    /** `PosturePopup(message, display_seconds)`: built hidden and placed. */
    constructor (message: string, displaySeconds: int, available: Option<Rect>)
      ensures this.message == message && this.displaySeconds == displaySeconds
      ensures position == if available.Some? then Some(PopupPosition(available.value)) else None
      ensures !visible && !dismissActive && dismissMs == 0
    {
      this.message := message;
      this.displaySeconds := displaySeconds;
      position := if available.Some? then Some(PopupPosition(available.value)) else None;
      visible := false;
      dismissActive := false;
      dismissMs := 0;
    }

    /** `show_popup()`: shown, and closed once after `display_seconds * 1000` ms. */
    method ShowPopup()
      modifies this
      ensures visible && dismissActive && dismissMs == displaySeconds * 1000
    {
      visible := true;
      dismissActive := true;
      dismissMs := displaySeconds * 1000;
    }

    /** `close()`, from the close button or the reminder. */
    method Close()
      modifies this
      ensures !visible
      ensures dismissActive == old(dismissActive) && dismissMs == old(dismissMs)
    {
      visible := false;
    }

    /** The single-shot timer's timeout: it fires once and closes the popup. */
    method AutoDismiss()
      requires dismissActive
      modifies this
      ensures !visible && !dismissActive && dismissMs == old(dismissMs)
    {
      dismissActive := false;
      Close();
    }
  }

  // ------------------------------------------------------------------
  // The reminder
  // ------------------------------------------------------------------

  /** `PostureReminder`. */
  class PostureReminder {
    const settings: SettingsManager
    const db: Database.DatabaseManager
    var enabled: bool
    var timerActive: bool
    var intervalMs: int
    var popup: PosturePopup?
    /** Every popup shown so far, oldest first; the last is `popup`. */
    ghost var shown: seq<PosturePopup>

    /**
     * The interval timer runs exactly while enabled, and every popup but
     * the current one has been closed: at most one popup is on screen.
     */
    ghost predicate Valid()
      reads this, db, set p | p in shown
    {
      && db.Valid()
      && timerActive == enabled
      && (popup == null <==> shown == [])
      && (popup != null ==> popup == shown[|shown| - 1])
      && (forall i :: 0 <= i < |shown| - 1 ==> !shown[i].visible)
    }

    /** `PostureReminder(settings, db)`: disabled, no popup. */
    constructor (settings: SettingsManager, db: Database.DatabaseManager)
      requires db.Valid()
      ensures Valid()
      ensures this.settings == settings && this.db == db
      ensures !enabled && popup == null && intervalMs == 0
    {
      this.settings := settings;
      this.db := db;
      enabled := false;
      timerActive := false;
      intervalMs := 0;
      popup := null;
      shown := [];
    }

    /** `is_enabled()`: whether reminders are on, which is whether the interval timer runs. */
    function IsEnabled(): (r: bool)
      requires Valid()
      reads this, db, set p | p in shown
      ensures r <==> timerActive
    {
      enabled
    }

    /** `_restart_timer()`: the interval timer (re)armed from the current setting. */
    method RestartTimer()
      requires IntervalTyped(settings.config)
      modifies this
      ensures timerActive && intervalMs == IntervalMs(settings.config)
      ensures enabled == old(enabled) && popup == old(popup) && shown == old(shown)
    {
      intervalMs := IntervalMs(settings.config);
      timerActive := true;
    }

    /** `start()`: nothing when enabled; otherwise enabled with the timer armed. */
    method Start()
      requires Valid() && IntervalTyped(settings.config)
      modifies this
      ensures Valid()
      ensures enabled && timerActive
      ensures old(enabled) ==> intervalMs == old(intervalMs)
      ensures !old(enabled) ==> intervalMs == IntervalMs(settings.config)
      ensures popup == old(popup) && shown == old(shown)
    {
      if enabled {
        return;
      }
      enabled := true;
      RestartTimer();
    }

    /** `stop()`: disabled, timer stopped, whatever the state before. */
    method Stop()
      requires Valid()
      modifies this
      ensures Valid()
      ensures !enabled && !timerActive
      ensures intervalMs == old(intervalMs) && popup == old(popup) && shown == old(shown)
    {
      enabled := false;
      timerActive := false;
    }

    /** `toggle()`: flips `enabled` and returns the new value. */
    method Toggle() returns (nowEnabled: bool)
      requires Valid() && IntervalTyped(settings.config)
      modifies this
      ensures Valid()
      ensures nowEnabled == enabled && enabled == !old(enabled)
      ensures nowEnabled ==> intervalMs == IntervalMs(settings.config)
      ensures !nowEnabled ==> intervalMs == old(intervalMs)
      ensures popup == old(popup) && shown == old(shown)
    {
      if enabled {
        Stop();
      } else {
        Start();
      }
      nowEnabled := enabled;
    }

    /** `update_interval()`: re-armed from the current setting when enabled; otherwise nothing. */
    method UpdateInterval()
      requires Valid() && IntervalTyped(settings.config)
      modifies this
      ensures Valid()
      ensures old(enabled) ==> enabled && timerActive && intervalMs == IntervalMs(settings.config)
      ensures !old(enabled) ==> enabled == old(enabled) && timerActive == old(timerActive)
                                && intervalMs == old(intervalMs)
      ensures popup == old(popup) && shown == old(shown)
    {
      if enabled {
        RestartTimer();
      }
    }

    /**
     * `_show_reminder()`, on each timeout of the interval timer: the
     * previous popup is closed, a new one with the current message is
     * placed, shown and set to close after 8 seconds, and exactly one
     * posture alert is recorded.
     */
    method ShowReminder(env: Database.Env, available: Option<Rect>)
      requires Valid() && timerActive && MessageTyped(settings.config)
      modifies this, popup, db
      ensures Valid()
      ensures old(popup) != null ==> !old(popup).visible
      ensures popup != null && fresh(popup) && shown == old(shown) + [popup]
      ensures popup.message == Message(settings.config) && popup.displaySeconds == DisplaySeconds
      ensures popup.position == if available.Some? then Some(PopupPosition(available.value)) else None
      ensures popup.visible && popup.dismissActive && popup.dismissMs == DisplaySeconds * 1000
      ensures db.PostureAlertRecorded(env.now, env.today, env.storageUp)
      ensures enabled == old(enabled) && timerActive == old(timerActive) && intervalMs == old(intervalMs)
    {
      var message := Message(settings.config);
      if popup != null {
        popup.Close();
      }
      var p := new PosturePopup(message, DisplaySeconds, available);
      p.ShowPopup();
      popup := p;
      shown := shown + [p];
      db.RecordPostureAlert(env.now, env.today, env.storageUp);
    }
  }
}
