/**
 * The Pomodoro screen: a FOCUS/BREAK session state machine driven by the
 * Start/Pause button, Reset, the countdown timer's tick and finish callbacks,
 * accelerometer events (movement pauses a running FOCUS session) and the
 * return from the settings screen. The countdown timer and the sensor are
 * the framework's; their callbacks are the event methods of `PomodoroTimer`.
 */
module Pomodoro {
  import opened JavaLang
  import Prefs

  datatype SessionType = Focus | Break

  /** `60L * 1000L`. */
  const MsPerMinute: int := 60000
  /** The longest duration a stored minutes value can give. */
  const MaxDurationMs: int := IntMax * MsPerMinute
  /** `MOVE_THRESHOLD`: summed per-axis change that counts as movement. */
  const MoveThreshold: real := 2.0

  /**
   * `min * 60L * 1000L` in `loadDurationsFromPrefs`: the `int` is widened to
   * `long` before the product, so no minutes value can overflow it.
   */
  function MinutesToMs(m: int32): (ms: int)
    ensures InLong(ms)
    ensures m >= 1 ==> MsPerMinute <= ms <= MaxDurationMs
  {
    m * 60 * 1000
  }

  predicate IsDuration(ms: int) { MsPerMinute <= ms <= MaxDurationMs }

  /** The `mm:ss` pair `updateTimerText` formats. */
  datatype TimerDisplay = TimerDisplay(minutes: int32, seconds: int32)

  /**
   * `updateTimerText`: whole seconds `timeLeftMs / 1000`, split into minutes
   * `totalSec / 60` and seconds `totalSec % 60`, each cast to `int`.
   */
  function TimerText(ms: int): (t: TimerDisplay)
    ensures 0 <= ms <= MaxDurationMs ==>
      && 0 <= t.seconds < 60 && 0 <= t.minutes
      && (t.minutes * 60 + t.seconds) * 1000 <= ms < (t.minutes * 60 + t.seconds + 1) * 1000
  {
    var totalSec := Quot(ms, 1000);
    assert 0 <= ms <= MaxDurationMs ==> Quot(totalSec, 60) <= IntMax;
    TimerDisplay(WrapInt(Quot(totalSec, 60)), WrapInt(Rem(totalSec, 60)))
  }

  /** A duration loaded from the preferences shows as whole minutes, `mm:00`. */
  lemma TimerTextOfMinutes(m: int32)
    requires m >= 1
    ensures TimerText(MinutesToMs(m)) == TimerDisplay(m, 0)
  {
    var ms := MinutesToMs(m);
    assert ms / 1000 == m * 60;
    assert (m * 60) / 60 == m;
    assert (m * 60) % 60 == 0;
  }

  /** `updateStartButton`'s choice of label. */
  function StartLabel(running: bool, started: bool, timeLeftMs: int): (s: string)
    ensures s == "Pause" <==> running
    ensures s == "Resume" <==> !running && started && timeLeftMs > 0
    ensures s == "Start" <==> !running && !(started && timeLeftMs > 0)
  {
    if running then "Pause"
    else if started && timeLeftMs > 0 then "Resume"
    else "Start"
  }

  /** One accelerometer reading; `isAccelerometer` is the sensor-type check. */
  datatype SensorEvent = SensorEvent(isAccelerometer: bool, x: real, y: real, z: real)

  function Abs(x: real): real { if x < 0.0 then -x else x }

  /** The movement test of `onSensorChanged`: |dx| + |dy| + |dz| above the threshold. */
  predicate Moved(lastX: real, lastY: real, lastZ: real, e: SensorEvent)
    ensures e.x == lastX && e.y == lastY && e.z == lastZ ==> !Moved(lastX, lastY, lastZ, e)
    ensures Moved(lastX, lastY, lastZ, e) ==>
      || Abs(e.x - lastX) > MoveThreshold / 3.0
      || Abs(e.y - lastY) > MoveThreshold / 3.0
      || Abs(e.z - lastZ) > MoveThreshold / 3.0
  {
    Abs(e.x - lastX) + Abs(e.y - lastY) + Abs(e.z - lastZ) > MoveThreshold
  }

  class PomodoroTimer {
    const prefs: Prefs.PrefStore
    /** Whether the device has an accelerometer (`accelerometer != null`). */
    const hasAccelerometer: bool

    var currentSession: SessionType
    var focusDurationMs: int
    var breakDurationMs: int
    var timeLeftMs: int
    var isTimerRunning: bool
    var hasStartedSession: bool
    var lastX: real
    var lastY: real
    var lastZ: real
    var isFirstSensorEvent: bool
    /** What the timer text view shows. */
    var timerText: TimerDisplay
    /** What the Start button shows. */
    var startButtonLabel: string

    /**
     * The screen's invariant: durations come from stored minutes, the time
     * left is within range, a running timer belongs to a started session, a
     * session not yet started is a full FOCUS session, and the button label
     * always matches the state.
     */
    ghost predicate Valid()
      reads this
    {
      && IsDuration(focusDurationMs) && IsDuration(breakDurationMs)
      && 0 <= timeLeftMs <= MaxDurationMs
      && (isTimerRunning ==> hasStartedSession)
      && (!hasStartedSession ==> currentSession == Focus && timeLeftMs == focusDurationMs)
      && startButtonLabel == StartLabel(isTimerRunning, hasStartedSession, timeLeftMs)
    }

    /** `onCreate`: durations from the preferences, a fresh FOCUS session, timer idle. */
    constructor (prefs: Prefs.PrefStore, hasAccelerometer: bool)
      requires prefs.Valid()
      ensures this.prefs == prefs && this.hasAccelerometer == hasAccelerometer
      ensures Valid()
      ensures currentSession == Focus && !isTimerRunning && !hasStartedSession
      ensures focusDurationMs == MinutesToMs(prefs.GetFocusMin())
      ensures breakDurationMs == MinutesToMs(prefs.GetBreakMin())
      ensures timeLeftMs == focusDurationMs
      ensures timerText == TimerText(timeLeftMs) && startButtonLabel == "Start"
      ensures isFirstSensorEvent
    {
      this.prefs := prefs;
      this.hasAccelerometer := hasAccelerometer;
      currentSession := Focus;
      focusDurationMs := MinutesToMs(prefs.GetFocusMin());
      breakDurationMs := MinutesToMs(prefs.GetBreakMin());
      timeLeftMs := MinutesToMs(prefs.GetFocusMin());
      isTimerRunning := false;
      hasStartedSession := false;
      lastX, lastY, lastZ := 0.0, 0.0, 0.0;
      isFirstSensorEvent := true;
      timerText := TimerText(MinutesToMs(prefs.GetFocusMin()));
      startButtonLabel := "Start";
    }

    /** The session's full length. */
    function SessionDurationMs(): (d: int)
      reads this
      ensures currentSession == Focus ==> d == focusDurationMs
      ensures currentSession == Break ==> d == breakDurationMs
      ensures IsDuration(focusDurationMs) && IsDuration(breakDurationMs) ==> IsDuration(d)
    {
      if currentSession == Focus then focusDurationMs else breakDurationMs
    }

    // -------------------------------------------------------------------
    // Helpers: each changes only the fields its contract names
    // -------------------------------------------------------------------

    /** `loadDurationsFromPrefs`. */
    method LoadDurationsFromPrefs()
      requires prefs.Valid()
      modifies this`focusDurationMs, this`breakDurationMs
      ensures focusDurationMs == MinutesToMs(prefs.GetFocusMin())
      ensures breakDurationMs == MinutesToMs(prefs.GetBreakMin())
      ensures IsDuration(focusDurationMs) && IsDuration(breakDurationMs)
    {
      var fMin := prefs.GetFocusMin();
      var bMin := prefs.GetBreakMin();
      focusDurationMs := MinutesToMs(fMin);
      breakDurationMs := MinutesToMs(bMin);
    }

    /** `updateTimerText`. */
    method UpdateTimerText()
      modifies this`timerText
      ensures timerText == TimerText(timeLeftMs)
    {
      timerText := TimerText(timeLeftMs);
    }

    /** `updateStartButton`. */
    method UpdateStartButton()
      modifies this`startButtonLabel
      ensures startButtonLabel == StartLabel(isTimerRunning, hasStartedSession, timeLeftMs)
    {
      startButtonLabel := StartLabel(isTimerRunning, hasStartedSession, timeLeftMs);
    }

    /** `cancelTimer`: stops the countdown; the time left is kept. */
    method CancelTimer()
      modifies this`isTimerRunning
      ensures !isTimerRunning
    {
      isTimerRunning := false;
    }

    /**
     * `startTimer(timeLeftMs, detectMovement)`: arms a fresh countdown of the
     * time left and asks for a new sensor baseline.
     */
    method StartTimer()
      modifies this`isTimerRunning, this`isFirstSensorEvent, this`startButtonLabel
      ensures isTimerRunning && isFirstSensorEvent
      ensures startButtonLabel == "Pause"
    {
      CancelTimer();
      isTimerRunning := true;
      isFirstSensorEvent := true;
      UpdateStartButton();
    }

    /** `startFocus`. */
    method StartFocus()
      modifies this`currentSession, this`isTimerRunning, this`isFirstSensorEvent, this`startButtonLabel
      ensures currentSession == Focus
      ensures isTimerRunning && isFirstSensorEvent && startButtonLabel == "Pause"
    {
      currentSession := Focus;
      StartTimer();
    }

    /** `startBreak`. */
    method StartBreak()
      modifies this`currentSession, this`isTimerRunning, this`isFirstSensorEvent, this`startButtonLabel
      ensures currentSession == Break
      ensures isTimerRunning && isFirstSensorEvent && startButtonLabel == "Pause"
    {
      currentSession := Break;
      StartTimer();
    }

    /** `pauseTimer`: stops the countdown and marks the session as started, so Start resumes it. */
    method PauseTimer()
      requires Valid()
      modifies this`isTimerRunning, this`hasStartedSession, this`startButtonLabel
      ensures Valid()
      ensures !isTimerRunning && hasStartedSession
    {
      CancelTimer();
      hasStartedSession := true;
      UpdateStartButton();
    }

    /** `stopDueToMovement`. */
    method StopDueToMovement()
      requires Valid()
      modifies this`isTimerRunning, this`hasStartedSession, this`startButtonLabel
      ensures Valid()
      ensures !isTimerRunning && hasStartedSession
    {
      PauseTimer();
    }

    // -------------------------------------------------------------------
    // Events
    // -------------------------------------------------------------------

    /**
     * Start/Pause button. Running: pause, keeping the session and the time
     * left. Not running: a session not yet started reloads the durations and
     * restarts from its full length; a started one resumes with the time left.
     */
    method OnStartClicked()
      requires Valid() && prefs.Valid()
      modifies this
      ensures Valid()
      ensures currentSession == old(currentSession)
      ensures hasStartedSession
      ensures isTimerRunning == !old(isTimerRunning)
      ensures old(isTimerRunning) ==>
        && timeLeftMs == old(timeLeftMs)
        && focusDurationMs == old(focusDurationMs) && breakDurationMs == old(breakDurationMs)
        && isFirstSensorEvent == old(isFirstSensorEvent)
      ensures !old(isTimerRunning) ==> isFirstSensorEvent
      ensures !old(isTimerRunning) && !old(hasStartedSession) ==>
        && focusDurationMs == MinutesToMs(prefs.GetFocusMin())
        && breakDurationMs == MinutesToMs(prefs.GetBreakMin())
        && timeLeftMs == SessionDurationMs()
      ensures !old(isTimerRunning) && old(hasStartedSession) ==>
        && timeLeftMs == old(timeLeftMs)
        && focusDurationMs == old(focusDurationMs) && breakDurationMs == old(breakDurationMs)
      ensures lastX == old(lastX) && lastY == old(lastY) && lastZ == old(lastZ)
      ensures timerText == old(timerText)
    {
      if isTimerRunning {
        PauseTimer();
        return;
      }
      if !hasStartedSession {
        LoadDurationsFromPrefs();
        timeLeftMs := if currentSession == Focus then focusDurationMs else breakDurationMs;
        hasStartedSession := true;
      }
      if currentSession == Focus {
        StartFocus();
      } else {
        StartBreak();
      }
    }

    /** Reset: stop, back to a fresh FOCUS session of the stored length. */
    method OnResetClicked()
      requires Valid() && prefs.Valid()
      modifies this
      ensures Valid()
      ensures currentSession == Focus && !isTimerRunning && !hasStartedSession
      ensures focusDurationMs == MinutesToMs(prefs.GetFocusMin())
      ensures breakDurationMs == MinutesToMs(prefs.GetBreakMin())
      ensures timeLeftMs == focusDurationMs
      ensures timerText == TimerText(timeLeftMs) && startButtonLabel == "Start"
      ensures lastX == old(lastX) && lastY == old(lastY) && lastZ == old(lastZ)
      ensures isFirstSensorEvent == old(isFirstSensorEvent)
    {
      CancelTimer();
      currentSession := Focus;
      hasStartedSession := false;
      LoadDurationsFromPrefs();
      timeLeftMs := focusDurationMs;
      UpdateTimerText();
      UpdateStartButton();
    }

    /**
     * Countdown tick. Ticks come only from the live countdown, which exists
     * exactly while `isTimerRunning`, and report a time left that never grows.
     */
    method OnTick(millisUntilFinished: int)
      requires Valid()
      requires isTimerRunning
      requires 0 <= millisUntilFinished <= timeLeftMs
      modifies this
      ensures Valid()
      ensures timeLeftMs == millisUntilFinished
      ensures timerText == TimerText(millisUntilFinished)
      ensures isTimerRunning && hasStartedSession && currentSession == old(currentSession)
      ensures focusDurationMs == old(focusDurationMs) && breakDurationMs == old(breakDurationMs)
      ensures lastX == old(lastX) && lastY == old(lastY) && lastZ == old(lastZ)
      ensures isFirstSensorEvent == old(isFirstSensorEvent)
    {
      timeLeftMs := millisUntilFinished;
      UpdateTimerText();
    }

    /**
     * Countdown finished. FOCUS is followed at once by a running BREAK of the
     * full break length; BREAK (no auto-loop) returns to a fresh FOCUS session
     * waiting for the user.
     */
    method OnFinish()
      requires Valid()
      requires isTimerRunning
      modifies this
      ensures Valid()
      ensures old(currentSession) == Focus ==>
        && currentSession == Break && isTimerRunning && hasStartedSession
        && timeLeftMs == breakDurationMs
        && isFirstSensorEvent
        && timerText == TimerText(0)
      ensures old(currentSession) == Break ==>
        && currentSession == Focus && !isTimerRunning && !hasStartedSession
        && timeLeftMs == focusDurationMs
        && isFirstSensorEvent == old(isFirstSensorEvent)
        && timerText == TimerText(focusDurationMs)
      ensures focusDurationMs == old(focusDurationMs) && breakDurationMs == old(breakDurationMs)
      ensures lastX == old(lastX) && lastY == old(lastY) && lastZ == old(lastZ)
    {
      isTimerRunning := false;
      timeLeftMs := 0;
      UpdateTimerText();
      if currentSession == Focus {
        timeLeftMs := breakDurationMs;
        hasStartedSession := true;
        StartBreak();
      } else {
        currentSession := Focus;
        timeLeftMs := focusDurationMs;
        hasStartedSession := false;
        UpdateTimerText();
        UpdateStartButton();
      }
    }

    /**
     * Accelerometer event. Ignored unless the timer runs in FOCUS; the first
     * event after a start only records a baseline; later ones pause the
     * session when the phone moved, and always become the new baseline.
     */
    method OnSensorChanged(e: SensorEvent)
      requires Valid()
      modifies this
      ensures Valid()
      ensures !old(isTimerRunning) || old(currentSession) != Focus || !e.isAccelerometer ==>
        && isTimerRunning == old(isTimerRunning) && hasStartedSession == old(hasStartedSession)
        && lastX == old(lastX) && lastY == old(lastY) && lastZ == old(lastZ)
        && isFirstSensorEvent == old(isFirstSensorEvent)
      ensures old(isTimerRunning) && old(currentSession) == Focus && e.isAccelerometer ==>
        && lastX == e.x && lastY == e.y && lastZ == e.z
        && !isFirstSensorEvent
        && hasStartedSession
        && (isTimerRunning <==> old(isFirstSensorEvent) || !Moved(old(lastX), old(lastY), old(lastZ), e))
      ensures currentSession == old(currentSession) && timeLeftMs == old(timeLeftMs)
      ensures focusDurationMs == old(focusDurationMs) && breakDurationMs == old(breakDurationMs)
      ensures timerText == old(timerText)
    {
      if !isTimerRunning { return; }
      if currentSession != Focus { return; }
      if !e.isAccelerometer { return; }

      if isFirstSensorEvent {
        lastX, lastY, lastZ := e.x, e.y, e.z;
        isFirstSensorEvent := false;
        return;
      }

      if Moved(lastX, lastY, lastZ, e) {
        StopDueToMovement();
      }
      lastX, lastY, lastZ := e.x, e.y, e.z;
    }

    /**
     * `applyDurationsFromPrefsIfIdle` (return from settings): nothing while
     * running; otherwise reload the durations, and a session not yet started
     * takes its new full length while a started one keeps its time left.
     */
    method ApplyDurationsFromPrefsIfIdle()
      requires Valid() && prefs.Valid()
      modifies this
      ensures Valid()
      ensures old(isTimerRunning) ==>
        && focusDurationMs == old(focusDurationMs) && breakDurationMs == old(breakDurationMs)
        && timeLeftMs == old(timeLeftMs) && timerText == old(timerText)
      ensures !old(isTimerRunning) ==>
        && focusDurationMs == MinutesToMs(prefs.GetFocusMin())
        && breakDurationMs == MinutesToMs(prefs.GetBreakMin())
      ensures !old(isTimerRunning) && !hasStartedSession ==>
        timeLeftMs == SessionDurationMs() && timerText == TimerText(timeLeftMs)
      ensures hasStartedSession ==> timeLeftMs == old(timeLeftMs) && timerText == old(timerText)
      ensures currentSession == old(currentSession)
      ensures isTimerRunning == old(isTimerRunning) && hasStartedSession == old(hasStartedSession)
      ensures lastX == old(lastX) && lastY == old(lastY) && lastZ == old(lastZ)
      ensures isFirstSensorEvent == old(isFirstSensorEvent)
      ensures startButtonLabel == old(startButtonLabel)
    {
      if isTimerRunning { return; }
      LoadDurationsFromPrefs();
      if !hasStartedSession {
        timeLeftMs := if currentSession == Focus then focusDurationMs else breakDurationMs;
        UpdateTimerText();
      }
    }

    /** `onResume`: a running FOCUS session keeps its sensor; otherwise the settings are re-applied if idle. */
    method OnResume()
      requires Valid() && prefs.Valid()
      modifies this
      ensures Valid()
      ensures old(isTimerRunning) ==>
        && focusDurationMs == old(focusDurationMs) && breakDurationMs == old(breakDurationMs)
        && timeLeftMs == old(timeLeftMs)
      ensures !old(isTimerRunning) ==>
        && focusDurationMs == MinutesToMs(prefs.GetFocusMin())
        && breakDurationMs == MinutesToMs(prefs.GetBreakMin())
      ensures !old(isTimerRunning) && !hasStartedSession ==> timeLeftMs == SessionDurationMs()
      ensures hasStartedSession ==> timeLeftMs == old(timeLeftMs) && timerText == old(timerText)
      ensures old(isTimerRunning) ==> timerText == old(timerText)
      ensures !old(isTimerRunning) && !hasStartedSession ==> timerText == TimerText(timeLeftMs)
      ensures currentSession == old(currentSession)
      ensures isTimerRunning == old(isTimerRunning) && hasStartedSession == old(hasStartedSession)
      ensures lastX == old(lastX) && lastY == old(lastY) && lastZ == old(lastZ)
      ensures isFirstSensorEvent == old(isFirstSensorEvent)
      ensures startButtonLabel == old(startButtonLabel)
    {
      if !(isTimerRunning && currentSession == Focus && hasAccelerometer) {
        ApplyDurationsFromPrefsIfIdle();
      }
    }
  }
}
