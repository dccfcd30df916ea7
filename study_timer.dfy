/** The study timer of `src/components/StudyTimer.tsx`: a countdown timer whose length is
    edited field by field (hours, minutes, seconds) and a stopwatch, sharing one
    start/pause button and one reset button.

    The component's state is the value `State`; every handler is a function from the
    old state to the new one (React applies the setters of one handler in order, and a
    handler reads the state of the render it was created in). `TimerComponent` holds the
    same state in fields and its methods are proved to perform those transitions. The
    one-second interval and the animation-frame loop become explicit `Second` and
    `Frame` events. */
module StudyTimer {
  import opened Wrappers
  import JsText

  datatype Mode = Timer | Stopwatch

  /** The field of the countdown length being edited. */
  datatype Field = Hours | Minutes | Seconds

  /** Everything the component keeps in `useState` and `initialTimeRef`. */
  datatype State = State(
    mode: Mode,
    showAlert: bool,
    timerRunning: bool,
    hours: nat,
    minutes: nat,
    seconds: nat,
    timeLeft: nat,
    editing: Option<Field>,
    initialTime: nat,
    stopwatchRunning: bool,
    elapsedMs: nat)

  /** The largest countdown length the fields can express: 99:59:59. */
  const MaxTotal := 99 * 3600 + 59 * 60 + 59

  /** The first render: timer mode, 40 minutes set and left, nothing running. */
  function Initial(): (st: State)
    ensures Valid(st) && st.timeLeft == Total(st.hours, st.minutes, st.seconds)
  {
    State(Timer, false, false, 0, 40, 0, 40 * 60, None, 40 * 60, false, 0)
  }

  /** `hours * 3600 + minutes * 60 + seconds`. */
  function Total(h: nat, m: nat, s: nat): nat {
    h * 3600 + m * 60 + s
  }

  /** The largest value an input field accepts. */
  function Limit(f: Field): nat {
    match f
    case Hours => 99
    case Minutes => 59
    case Seconds => 59
  }

  /** The fields are within their limits, so the countdown length is at most 99:59:59,
      and the time left never exceeds the length the countdown started from. */
  predicate Valid(st: State) {
    && st.hours <= Limit(Hours) && st.minutes <= Limit(Minutes) && st.seconds <= Limit(Seconds)
    && st.timeLeft <= st.initialTime <= MaxTotal
  }

  lemma TotalOfValidFields(h: nat, m: nat, s: nat)
    requires h <= 99 && m <= 59 && s <= 59
    ensures Total(h, m, s) <= MaxTotal
  {
  }

  // ----------------------------------------------------------------------------
  // Input clamping
  // ----------------------------------------------------------------------------

  function Min(a: int, b: int): int {
    if a <= b then a else b
  }

  function Max(a: int, b: int): int {
    if a >= b then a else b
  }

  /** `Math.min(limit, Math.max(0, n))`. */
  function Clamp(n: int, limit: nat): (r: nat)
    ensures r <= limit
    ensures 0 <= n <= limit ==> r == n
    ensures n < 0 ==> r == 0
    ensures n > limit ==> r == limit
  {
    Min(limit, Max(0, n))
  }

  /** The value stored for what was typed into field `f`: `Number.parseInt(value) || 0`,
      clamped to the field's range. */
  function InputValue(value: string, f: Field): (n: nat)
    ensures n <= Limit(f)
    ensures JsText.ParseInt(value).None? ==> n == 0
    ensures JsText.ParseInt(value).Some? && 0 <= JsText.ParseInt(value).value <= Limit(f) ==>
              n == JsText.ParseInt(value).value
  {
    Clamp(JsText.ParseIntOrZero(value), Limit(f))
  }

  /** A number within the field's range, typed in decimal, is stored as it is. */
  lemma InputOfDecimal(n: nat, f: Field)
    requires n <= Limit(f)
    ensures InputValue(JsText.NatToString(n), f) == n
  {
    JsText.ParseIntOfDecimal(n);
  }

  /** Text with no digit at all is stored as 0. */
  lemma InputWithoutDigits(value: string, f: Field)
    requires forall i :: 0 <= i < |value| ==> !JsText.IsDecimalDigit(value[i])
    ensures InputValue(value, f) == 0
  {
    JsText.ParseIntNoDigits(value);
  }

  // ----------------------------------------------------------------------------
  // The handlers
  // ----------------------------------------------------------------------------

  /** The effect installs the one-second interval only in timer mode, while running,
      with time left. */
  predicate Ticking(st: State) {
    st.mode == Timer && st.timerRunning && st.timeLeft > 0
  }

  /** One second of the interval: the `setTimeLeft` updater decrements the time left,
      or at the last second sets it to 0, stops the timer and raises the alert. Without
      an interval nothing happens. */
  function Tick(st: State): (r: State)
    ensures r.timeLeft <= st.timeLeft
    ensures Ticking(st) && st.timeLeft > 1 ==> r.timeLeft == st.timeLeft - 1 && r.(timeLeft := st.timeLeft) == st
    ensures Ticking(st) && st.timeLeft == 1 ==>
              && r.timeLeft == 0 && !r.timerRunning && r.showAlert
              && r.(timeLeft := st.timeLeft, timerRunning := st.timerRunning, showAlert := st.showAlert) == st
    ensures !Ticking(st) ==> r == st
  {
    if !Ticking(st) then st
    else if st.timeLeft <= 1 then st.(timeLeft := 0, timerRunning := false, showAlert := true)
    else st.(timeLeft := st.timeLeft - 1)
  }

  /** `resetTimer` as the current render sees it: in timer mode the countdown restarts
      from the fields' total, in stopwatch mode the elapsed time returns to 0; both
      running flags are cleared. */
  function Reset(st: State): (r: State)
    ensures !r.timerRunning && !r.stopwatchRunning && r.mode == st.mode
    ensures st.mode == Timer ==>
              r.timeLeft == r.initialTime == Total(st.hours, st.minutes, st.seconds) && r.elapsedMs == st.elapsedMs
    ensures st.mode == Stopwatch ==>
              r.elapsedMs == 0 && r.timeLeft == st.timeLeft && r.initialTime == st.initialTime
    ensures r.(timerRunning := st.timerRunning, stopwatchRunning := st.stopwatchRunning, timeLeft := st.timeLeft,
               initialTime := st.initialTime, elapsedMs := st.elapsedMs) == st
  {
    match st.mode
    case Timer =>
      var total := Total(st.hours, st.minutes, st.seconds);
      st.(timeLeft := total, timerRunning := false, stopwatchRunning := false, initialTime := total)
    case Stopwatch =>
      st.(elapsedMs := 0, timerRunning := false, stopwatchRunning := false)
  }

  /** `toggleTimer`: a stopped countdown at 0 is reset and started; otherwise the
      running flag of the current mode flips. */
  function Toggle(st: State): (r: State)
    ensures st.mode == Timer ==> r.timerRunning == !st.timerRunning
    ensures st.mode == Stopwatch ==> r.stopwatchRunning == !st.stopwatchRunning && r.timerRunning == st.timerRunning
    ensures st.mode == Timer && !st.timerRunning && st.timeLeft == 0 ==>
              r.timeLeft == r.initialTime == Total(st.hours, st.minutes, st.seconds)
    ensures st.mode == Timer && !st.timerRunning && st.timeLeft == 0 ==>
              && !r.stopwatchRunning
              && r.(timerRunning := st.timerRunning, stopwatchRunning := st.stopwatchRunning,
                    timeLeft := st.timeLeft, initialTime := st.initialTime) == st
    ensures !(st.mode == Timer && !st.timerRunning && st.timeLeft == 0) ==>
              if st.mode == Timer then r.(timerRunning := st.timerRunning) == st
              else r.(stopwatchRunning := st.stopwatchRunning) == st
  {
    match st.mode
    case Timer =>
      if !st.timerRunning && st.timeLeft == 0 then Reset(st).(timerRunning := !st.timerRunning)
      else st.(timerRunning := !st.timerRunning)
    case Stopwatch =>
      st.(stopwatchRunning := !st.stopwatchRunning)
  }

  /** A mode button: `setMode(next)` and then `resetTimer()` of the render the click
      happened in, which resets the mode being left. */
  function SwitchMode(st: State, next: Mode): (r: State)
    ensures r.mode == next && !r.timerRunning && !r.stopwatchRunning
    ensures st.mode == Timer ==>
              r.timeLeft == r.initialTime == Total(st.hours, st.minutes, st.seconds) && r.elapsedMs == st.elapsedMs
    ensures st.mode == Stopwatch ==>
              r.elapsedMs == 0 && r.timeLeft == st.timeLeft && r.initialTime == st.initialTime
    ensures r.(mode := st.mode, timerRunning := st.timerRunning, stopwatchRunning := st.stopwatchRunning,
               timeLeft := st.timeLeft, initialTime := st.initialTime, elapsedMs := st.elapsedMs) == st
  {
    Reset(st).(mode := next)
  }

  /** `handleTimeClick`: a field becomes editable only while the timer is stopped in
      timer mode. */
  function TimeClick(st: State, f: Field): (r: State)
    ensures r.editing == (if !st.timerRunning && st.mode == Timer then Some(f) else st.editing)
    ensures r.(editing := st.editing) == st
  {
    if !st.timerRunning && st.mode == Timer then st.(editing := Some(f)) else st
  }

  /** `handleTimeInput` as written: the clamped value goes into its field, editing ends,
      and the time left and the initial time become the total of the fields as they were
      before this edit (the handler reads the previous render's values). */
  function TimeInput(st: State, value: string, f: Field): (r: State)
    ensures r.editing.None?
    ensures r.timeLeft == r.initialTime == Total(st.hours, st.minutes, st.seconds)
    ensures f == Hours ==> r.hours == InputValue(value, f) && r.minutes == st.minutes && r.seconds == st.seconds
    ensures f == Minutes ==> r.minutes == InputValue(value, f) && r.hours == st.hours && r.seconds == st.seconds
    ensures f == Seconds ==> r.seconds == InputValue(value, f) && r.hours == st.hours && r.minutes == st.minutes
    ensures r.(hours := st.hours, minutes := st.minutes, seconds := st.seconds, editing := st.editing,
               timeLeft := st.timeLeft, initialTime := st.initialTime) == st
  {
    var n := InputValue(value, f);
    var edited := match f
      case Hours => st.(hours := n)
      case Minutes => st.(minutes := n)
      case Seconds => st.(seconds := n);
    var total := Total(st.hours, st.minutes, st.seconds);
    edited.(editing := None, timeLeft := total, initialTime := total)
  }

  /** `handleTimeInput` as evidently intended: the time left is the total of the fields
      including this edit. */
  function TimeInputIntended(st: State, value: string, f: Field): (r: State)
    ensures r.timeLeft == r.initialTime == Total(r.hours, r.minutes, r.seconds)
    ensures r == TimeInput(st, value, f).(timeLeft := r.timeLeft, initialTime := r.initialTime)
  {
    var edited := TimeInput(st, value, f);
    var total := Total(edited.hours, edited.minutes, edited.seconds);
    edited.(timeLeft := total, initialTime := total)
  }

  /** The input's `onBlur`: editing ends and nothing else changes. */
  function Blur(st: State): (r: State)
    ensures r.editing.None? && r.(editing := st.editing) == st
  {
    st.(editing := None)
  }

  /** The alert's confirm button: the alert closes and nothing else changes. */
  function DismissAlert(st: State): (r: State)
    ensures !r.showAlert && r.(showAlert := st.showAlert) == st
  {
    st.(showAlert := false)
  }

  /** Animation frames while the stopwatch runs: the elapsed time grows by the time
      that passed (`Date.now() - startTime` with `startTime = Date.now() - elapsedTime`). */
  function Frame(st: State, deltaMs: nat): (r: State)
    ensures r.elapsedMs >= st.elapsedMs
    ensures st.mode == Stopwatch && st.stopwatchRunning ==> r.elapsedMs == st.elapsedMs + deltaMs
    ensures !(st.mode == Stopwatch && st.stopwatchRunning) ==> r == st
  {
    if st.mode == Stopwatch && st.stopwatchRunning then st.(elapsedMs := st.elapsedMs + deltaMs) else st
  }

  // ----------------------------------------------------------------------------
  // Properties of the handlers
  // ----------------------------------------------------------------------------

  /** What can happen to the component. */
  datatype Event =
    | Second
    | StartPause
    | ResetButton
    | ModeButton(mode: Mode)
    | FieldClick(field: Field)
    | FieldInput(value: string, field: Field)
    | FieldBlur
    | AlertConfirmed
    | AnimationFrame(deltaMs: nat)

  function Step(st: State, e: Event): State {
    match e
    case Second => Tick(st)
    case StartPause => Toggle(st)
    case ResetButton => Reset(st)
    case ModeButton(m) => SwitchMode(st, m)
    case FieldClick(f) => TimeClick(st, f)
    case FieldInput(v, f) => TimeInput(st, v, f)
    case FieldBlur => Blur(st)
    case AlertConfirmed => DismissAlert(st)
    case AnimationFrame(d) => Frame(st, d)
  }

  function Run(st: State, events: seq<Event>): State
    decreases |events|
  {
    if events == [] then st else Run(Step(st, events[0]), events[1..])
  }

  /** Every handler keeps the fields in range and the time left within the length the
      countdown started from. */
  lemma StepPreservesValid(st: State, e: Event)
    requires Valid(st)
    ensures Valid(Step(st, e))
  {
    TotalOfValidFields(st.hours, st.minutes, st.seconds);
  }

  /** Whatever happens from the first render on, the state stays valid. */
  lemma {:induction false} RunPreservesValid(st: State, events: seq<Event>)
    requires Valid(st)
    ensures Valid(Run(st, events))
    decreases |events|
  {
    if events != [] {
      StepPreservesValid(st, events[0]);
      RunPreservesValid(Step(st, events[0]), events[1..]);
    }
  }

  lemma ReachableStatesAreValid(events: seq<Event>)
    ensures Valid(Run(Initial(), events))
  {
    RunPreservesValid(Initial(), events);
  }

  function Ticks(st: State, n: nat): State
    decreases n
  {
    if n == 0 then st else Ticks(Tick(st), n - 1)
  }

  /** A running countdown with `t` seconds left counts down one second per tick: after
      `k < t` ticks it is still running with `t - k` left, and after exactly `t` ticks
      it has stopped at 0 with the alert raised. */
  lemma {:induction false} CountdownReachesZero(st: State, k: nat)
    requires Ticking(st) && k <= st.timeLeft
    ensures var r := Ticks(st, k);
            && r.timeLeft == st.timeLeft - k
            && (k < st.timeLeft ==> r.timerRunning && r.showAlert == st.showAlert)
            && (k == st.timeLeft ==> !r.timerRunning && r.showAlert)
            && r.hours == st.hours && r.minutes == st.minutes && r.seconds == st.seconds
            && r.initialTime == st.initialTime
    decreases k
  {
    if k > 0 {
      if st.timeLeft == 1 {
        assert Ticks(Tick(st), 0) == Tick(st);
      } else {
        CountdownReachesZero(Tick(st), k - 1);
      }
    }
  }

  /** Once the countdown has stopped, further seconds change nothing. */
  lemma {:induction false} StoppedCountdownStaysPut(st: State, n: nat)
    requires !Ticking(st)
    ensures Ticks(st, n) == st
  {
    if n > 0 {
      StoppedCountdownStaysPut(Tick(st), n - 1);
    }
  }

  /** Pressing start/pause twice gives back the state, unless the first press restarted
      a finished countdown. */
  lemma ToggleTwice(st: State)
    requires !(st.mode == Timer && !st.timerRunning && st.timeLeft == 0)
    requires !(st.mode == Timer && st.timerRunning && st.timeLeft == 0)
    ensures Toggle(Toggle(st)) == st
  {
  }

  /** Pressing start on a finished countdown starts it again from the fields' total. */
  lemma StartAfterFinish(st: State)
    requires st.mode == Timer && !st.timerRunning && st.timeLeft == 0
    requires Total(st.hours, st.minutes, st.seconds) > 0
    ensures Ticking(Toggle(st))
    ensures Toggle(st).timeLeft == Total(st.hours, st.minutes, st.seconds)
  {
  }

  /** Reset is idempotent. */
  lemma ResetIdempotent(st: State)
    ensures Reset(Reset(st)) == Reset(st)
  {
  }

  /** The mode buttons reset the mode being left, not the one chosen: leaving the
      stopwatch clears its elapsed time and keeps the countdown where it stood, leaving
      the timer restarts the countdown and keeps the stopwatch's elapsed time. */
  lemma SelectModeResetsModeLeft(st: State)
    ensures st.mode == Stopwatch ==>
              SwitchMode(st, Timer).elapsedMs == 0 && SwitchMode(st, Timer).timeLeft == st.timeLeft
    ensures st.mode == Timer ==>
              SwitchMode(st, Stopwatch).elapsedMs == st.elapsedMs
              && SwitchMode(st, Stopwatch).timeLeft == Total(st.hours, st.minutes, st.seconds)
  {
  }

  /** A field can only be put into editing while the timer is stopped in timer mode. */
  lemma EditingStartsOnlyWhenStopped(st: State, e: Event)
    requires st.editing.None? && Step(st, e).editing.Some?
    ensures e.FieldClick? && !st.timerRunning && st.mode == Timer
  {
  }

  /** Ticks of the stopwatch add up. */
  lemma FramesAddUp(st: State, a: nat, b: nat)
    ensures Frame(Frame(st, a), b) == Frame(st, a + b)
  {
  }

  /** The edit's own value is not in the countdown: typing 30 into the minutes of the
      first render leaves 40 minutes (2400 seconds) to count down. */
  lemma TimeInputUsesPreviousFields()
    ensures var r := TimeInput(Initial(), JsText.NatToString(30), Minutes);
            r.minutes == 30 && r.timeLeft == 2400 && r.timeLeft != Total(r.hours, r.minutes, r.seconds)
  {
    InputOfDecimal(30, Minutes);
  }

  // ----------------------------------------------------------------------------
  // Display formatting
  // ----------------------------------------------------------------------------

  /** `n.toString().padStart(2, "0")`. */
  function Pad2(n: nat): (r: string)
    ensures |r| >= 2 && (n < 100 ==> |r| == 2)
    ensures var d := JsText.NatToString(n);
            |d| <= |r| && r[|r| - |d|..] == d && forall i :: 0 <= i < |r| - |d| ==> r[i] == '0'
  {
    JsText.PadStart(JsText.NatToString(n), 2, '0')
  }

  /** Below 100 the padded rendering is exactly the two decimal digits. */
  lemma Pad2Digits(n: nat)
    requires n < 100
    ensures Pad2(n) == [JsText.DigitChar(n / 10), JsText.DigitChar(n % 10)]
  {
    if n >= 10 {
      assert JsText.NatToString(n / 10) == [JsText.DigitChar(n / 10)];
    }
  }

  /** Two numbers below 100 with the same padded rendering are equal. */
  lemma Pad2Injective(a: nat, b: nat)
    requires a < 100 && b < 100 && Pad2(a) == Pad2(b)
    ensures a == b
  {
    Pad2Digits(a);
    Pad2Digits(b);
    assert JsText.HexValue(Pad2(a)[0]) == a / 10 && JsText.HexValue(Pad2(b)[0]) == b / 10;
    assert JsText.HexValue(Pad2(a)[1]) == a % 10 && JsText.HexValue(Pad2(b)[1]) == b % 10;
  }

  /** The hours, minutes and seconds of a number of seconds. */
  datatype Clock = Clock(h: nat, m: nat, s: nat)

  /** `Math.floor(t / 3600)`, `Math.floor((t % 3600) / 60)`, `t % 60`: the fields
      reconstruct the time, with minutes and seconds below 60. */
  function ClockOf(t: nat): (c: Clock)
    ensures c.h * 3600 + c.m * 60 + c.s == t
    ensures c.m < 60 && c.s < 60
  {
    Clock(t / 3600, (t % 3600) / 60, t % 60)
  }

  /** `formatTimerDisplay`: `HH:MM:SS` of the time left. */
  function FormatTimerDisplay(timeLeft: nat): (r: string)
    ensures |r| >= 8 && r[|r| - 6] == ':' && r[|r| - 3] == ':'
    ensures r[|r| - 2..] == Pad2(timeLeft % 60)
  {
    var c := ClockOf(timeLeft);
    TwoLastFields(Pad2(c.h), Pad2(c.m), Pad2(c.s));
    Pad2(c.h) + ":" + Pad2(c.m) + ":" + Pad2(c.s)
  }

  /** Two two-character fields after a first one, each behind a colon. */
  lemma TwoLastFields(a: string, b: string, c: string)
    requires |b| == 2 && |c| == 2
    ensures var r := a + ":" + b + ":" + c;
            |r| == |a| + 6 && r[|r| - 6] == ':' && r[|r| - 3] == ':' && r[|r| - 2..] == c
  {
    var r := a + ":" + b + ":" + c;
    assert r[|r| - 2..] == c;
  }

  /** The clock of a total made from fields within their limits is those fields. */
  lemma ClockOfTotal(h: nat, m: nat, s: nat)
    ensures m < 60 && s < 60 ==> ClockOf(Total(h, m, s)) == Clock(h, m, s)
  {
    if m < 60 && s < 60 {
      var t := Total(h, m, s);
      assert t / 3600 == h && t % 3600 == m * 60 + s;
      assert (m * 60 + s) / 60 == m && t % 60 == s;
    }
  }

  /** Below 100 the padded rendering has two characters. */
  lemma Pad2Length(n: nat)
    requires n < 100
    ensures |Pad2(n)| == 2
  {
  }

  /** Three two-character fields separated by `sep1` and `sep2`. */
  lemma ThreeFields(a: string, b: string, c: string, sep1: string, sep2: string)
    requires |a| == 2 && |b| == 2 && |c| == 2 && |sep1| == 1 && |sep2| == 1
    ensures var d := a + sep1 + b + sep2 + c;
            |d| == 8 && d[2] == sep1[0] && d[5] == sep2[0] && d[..2] == a && d[3..5] == b && d[6..] == c
  {
    var d := a + sep1 + b + sep2 + c;
    assert d[..2] == a;
    assert d[3..5] == b;
    assert d[6..] == c;
  }

  /** Up to 99:59:59 the display is exactly eight characters, `HH:MM:SS`, each field
      the two-digit rendering of its value. */
  lemma TimerDisplayExact(timeLeft: nat)
    requires timeLeft <= MaxTotal
    ensures var d := FormatTimerDisplay(timeLeft);
            var c := ClockOf(timeLeft);
            && |d| == 8 && d[2] == ':' && d[5] == ':'
            && d[..2] == Pad2(c.h) && d[3..5] == Pad2(c.m) && d[6..] == Pad2(c.s)
  {
    var c := ClockOf(timeLeft);
    assert c.h < 100;
    Pad2Length(c.h);
    Pad2Length(c.m);
    Pad2Length(c.s);
    ThreeFields(Pad2(c.h), Pad2(c.m), Pad2(c.s), ":", ":");
  }

  /** Distinct times up to 99:59:59 are displayed differently. */
  lemma TimerDisplayInjective(t1: nat, t2: nat)
    requires t1 <= MaxTotal && t2 <= MaxTotal
    requires FormatTimerDisplay(t1) == FormatTimerDisplay(t2)
    ensures t1 == t2
  {
    var c1, c2 := ClockOf(t1), ClockOf(t2);
    var d := FormatTimerDisplay(t1);
    TimerDisplayExact(t1);
    TimerDisplayExact(t2);
    Pad2Injective(c1.h, c2.h);
    Pad2Injective(c1.m, c2.m);
    Pad2Injective(c1.s, c2.s);
  }

  /** What the timer mode shows as written while no field is being edited: the three
      input fields, each padded to two digits, not the time left. (The field being edited
      is an `<input>` holding the raw number instead.) */
  function TimerFace(st: State): (r: string)
    ensures Valid(st) ==> r == FormatTimerDisplay(Total(st.hours, st.minutes, st.seconds))
  {
    ClockOfTotal(st.hours, st.minutes, st.seconds);
    Pad2(st.hours) + ":" + Pad2(st.minutes) + ":" + Pad2(st.seconds)
  }

  /** While the countdown runs the face stays the same, although the time left changes
      and `formatTimerDisplay` would show the change. */
  lemma TimerFaceIgnoresCountdown(st: State)
    requires Valid(st) && Ticking(st)
    ensures TimerFace(Tick(st)) == TimerFace(st)
    ensures FormatTimerDisplay(Tick(st).timeLeft) != FormatTimerDisplay(st.timeLeft)
  {
    if FormatTimerDisplay(Tick(st).timeLeft) == FormatTimerDisplay(st.timeLeft) {
      TimerDisplayInjective(Tick(st).timeLeft, st.timeLeft);
    }
  }

  /** The fields of the stopwatch display: hours, minutes, seconds and centiseconds. */
  function Centiseconds(elapsedMs: nat): (cs: nat)
    ensures cs < 100
    ensures cs * 10 <= elapsedMs % 1000 < cs * 10 + 10
  {
    (elapsedMs % 1000) / 10
  }

  /** `formatStopwatchDisplay`: `HH:MM:SS.cc` from an hour on, `MM:SS.cc` before. */
  function FormatStopwatchDisplay(elapsedMs: nat): (d: string)
    ensures elapsedMs / 1000 >= 3600 <==> |d| >= 11
    ensures |d| >= 8 && d[|d| - 3] == '.' && d[|d| - 2..] == Pad2(Centiseconds(elapsedMs))
  {
    var t := elapsedMs / 1000;
    var c := ClockOf(t);
    assert c.h == t / 3600;
    assert c.h > 0 <==> t >= 3600;
    StopwatchText(c, Centiseconds(elapsedMs))
  }

  /** The stopwatch layout for given clock fields and centiseconds. */
  function StopwatchText(c: Clock, cs: nat): (d: string)
    ensures c.m < 100 && c.s < 100 && cs < 100 ==>
              && (c.h > 0 <==> |d| >= 11)
              && |d| >= 8 && d[|d| - 3] == '.' && d[|d| - 2..] == Pad2(cs)
              && (c.h == 0 ==> |d| == 8 && d[2] == ':' && d[5] == '.' && d[..2] == Pad2(c.m) && d[3..5] == Pad2(c.s))
  {
    LayoutShape(Pad2(c.h), Pad2(c.m), Pad2(c.s), Pad2(cs), c.h > 0);
    if c.h > 0 then Pad2(c.h) + ":" + Pad2(c.m) + ":" + Pad2(c.s) + "." + Pad2(cs)
    else Pad2(c.m) + ":" + Pad2(c.s) + "." + Pad2(cs)
  }

  /** The two layouts over given fields: with the hour field the text is at least
      eleven characters, without it exactly eight; both end in `.` and the last field. */
  lemma LayoutShape(hh: string, mm: string, ss: string, cc: string, withHours: bool)
    ensures |hh| >= 2 && |mm| == 2 && |ss| == 2 && |cc| == 2 ==>
            var d := if withHours then hh + ":" + mm + ":" + ss + "." + cc else mm + ":" + ss + "." + cc;
            && (withHours <==> |d| >= 11)
            && |d| >= 8 && d[|d| - 3] == '.' && d[|d| - 2..] == cc
            && (!withHours ==> |d| == 8 && d[2] == ':' && d[5] == '.' && d[..2] == mm && d[3..5] == ss)
  {
    if |hh| >= 2 && |mm| == 2 && |ss| == 2 && |cc| == 2 {
      var tail := mm + ":" + ss + "." + cc;
      ThreeFields(mm, ss, cc, ":", ".");
      if withHours {
        var d := hh + ":" + mm + ":" + ss + "." + cc;
        assert d == hh + ":" + tail;
        assert d[|d| - 2..] == tail[6..];
      }
    }
  }

  /** `d` is `hh:mm:ss.cc`, read at fixed offsets from its end. */
  predicate HourFields(d: string, hh: string, mm: string, ss: string, cc: string) {
    var k := |d| - 9;
    && k == |hh| && d[..k] == hh && d[k] == ':' && d[k + 1..k + 3] == mm
    && d[k + 3] == ':' && d[k + 4..k + 6] == ss && d[k + 6] == '.' && d[k + 7..] == cc
  }

  /** The layout with the hour field, over fields of two characters after the hours. */
  lemma HourLayout(hh: string, mm: string, ss: string, cc: string)
    requires |mm| == 2 && |ss| == 2 && |cc| == 2
    ensures HourFields(hh + ":" + mm + ":" + ss + "." + cc, hh, mm, ss, cc)
  {
    var tail := mm + ":" + ss + "." + cc;
    ThreeFields(mm, ss, cc, ":", ".");
    var d := hh + ":" + mm + ":" + ss + "." + cc;
    assert d == hh + ":" + tail;
    var k := |hh|;
    assert d[..k] == hh;
    assert d[k + 1..] == tail;
    assert d[k + 1..k + 3] == tail[..2];
    assert d[k + 4..k + 6] == tail[3..5];
    assert d[k + 7..] == tail[6..];
  }

  /** From an hour on the display is `HH:MM:SS.cc`: the hour field, then minutes, seconds
      and centiseconds at fixed offsets from the end, and the fields make up the elapsed
      whole seconds. */
  lemma StopwatchFromAnHour(elapsedMs: nat)
    requires elapsedMs / 1000 >= 3600
    ensures var d := FormatStopwatchDisplay(elapsedMs);
            var c := ClockOf(elapsedMs / 1000);
            && c.h >= 1 && c.h * 3600 + c.m * 60 + c.s == elapsedMs / 1000
            && HourFields(d, Pad2(c.h), Pad2(c.m), Pad2(c.s), Pad2(Centiseconds(elapsedMs)))
  {
    var c := ClockOf(elapsedMs / 1000);
    var cs := Centiseconds(elapsedMs);
    assert c.h == (elapsedMs / 1000) / 3600;
    var d := Pad2(c.h) + ":" + Pad2(c.m) + ":" + Pad2(c.s) + "." + Pad2(cs);
    assert FormatStopwatchDisplay(elapsedMs) == StopwatchText(c, cs) == d;
    HourLayout(Pad2(c.h), Pad2(c.m), Pad2(c.s), Pad2(cs));
  }

  lemma StopwatchUnderAnHour(elapsedMs: nat)
    requires elapsedMs / 1000 < 3600
    ensures var d := FormatStopwatchDisplay(elapsedMs);
            var c := ClockOf(elapsedMs / 1000);
            && |d| == 8 && d[2] == ':' && d[5] == '.'
            && d[..2] == Pad2(c.m) && d[3..5] == Pad2(c.s) && d[6..] == Pad2(Centiseconds(elapsedMs))
            && c.m * 60 + c.s == elapsedMs / 1000
  {
    var c := ClockOf(elapsedMs / 1000);
    assert c.h == 0;
  }

  // ----------------------------------------------------------------------------
  // The component
  // ----------------------------------------------------------------------------

  /** The mounted component: its state variables and its handlers. */
  class TimerComponent {
    var mode: Mode
    var showAlert: bool
    var timerRunning: bool
    var hours: nat
    var minutes: nat
    var seconds: nat
    var timeLeft: nat
    var editingField: Option<Field>
    var initialTime: nat
    var stopwatchRunning: bool
    var elapsedTime: nat

    /** The fields as a `State`. */
    function Snapshot(): State
      reads this
    {
      State(mode, showAlert, timerRunning, hours, minutes, seconds, timeLeft, editingField,
            initialTime, stopwatchRunning, elapsedTime)
    }

    constructor ()
      ensures Snapshot() == Initial()
    {
      mode := Timer;
      showAlert := false;
      timerRunning := false;
      hours := 0;
      minutes := 40;
      seconds := 0;
      timeLeft := 40 * 60;
      editingField := None;
      initialTime := 40 * 60;
      stopwatchRunning := false;
      elapsedTime := 0;
    }

    /** One firing of the one-second interval (installed only while `Ticking`). */
    method OnSecond()
      modifies this
      ensures Snapshot() == Tick(old(Snapshot()))
    {
      if mode == Timer && timerRunning && timeLeft > 0 {
        if timeLeft <= 1 {
          timerRunning := false;
          showAlert := true;
          timeLeft := 0;
        } else {
          timeLeft := timeLeft - 1;
        }
      }
    }

    method ResetTimer()
      modifies this
      ensures Snapshot() == Reset(old(Snapshot()))
    {
      if mode == Timer {
        var totalSeconds := hours * 3600 + minutes * 60 + seconds;
        timeLeft := totalSeconds;
        initialTime := totalSeconds;
      } else {
        elapsedTime := 0;
      }
      timerRunning := false;
      stopwatchRunning := false;
    }

    method ToggleTimer()
      modifies this
      ensures Snapshot() == Toggle(old(Snapshot()))
    {
      if mode == Timer {
        var wasRunning := timerRunning;
        if !timerRunning && timeLeft == 0 {
          ResetTimer();
        }
        timerRunning := !wasRunning;
      } else {
        stopwatchRunning := !stopwatchRunning;
      }
    }

    /** A mode button's `onClick`. */
    method SelectMode(next: Mode)
      modifies this
      ensures Snapshot() == SwitchMode(old(Snapshot()), next)
    {
      ResetTimer();
      mode := next;
    }

    method HandleTimeClick(field: Field)
      modifies this
      ensures Snapshot() == TimeClick(old(Snapshot()), field)
    {
      if !timerRunning && mode == Timer {
        editingField := Some(field);
      }
    }

    method HandleTimeInput(value: string, field: Field)
      modifies this
      ensures Snapshot() == TimeInput(old(Snapshot()), value, field)
    {
      var num := JsText.ParseIntOrZero(value);
      var totalSeconds := hours * 3600 + minutes * 60 + seconds;
      match field {
        case Hours =>
          hours := Clamp(num, 99);
          assert hours == InputValue(value, field);
        case Minutes =>
          minutes := Clamp(num, 59);
          assert minutes == InputValue(value, field);
        case Seconds =>
          seconds := Clamp(num, 59);
          assert seconds == InputValue(value, field);
      }
      editingField := None;
      timeLeft := totalSeconds;
      initialTime := totalSeconds;
    }

    /** The input's `onBlur`. */
    method HandleBlur()
      modifies this
      ensures Snapshot() == Blur(old(Snapshot()))
    {
      editingField := None;
    }

    method ConfirmAlert()
      modifies this
      ensures Snapshot() == DismissAlert(old(Snapshot()))
    {
      showAlert := false;
    }

    /** The animation-frame loop, `deltaMs` milliseconds later. */
    method OnFrame(deltaMs: nat)
      modifies this
      ensures Snapshot() == Frame(old(Snapshot()), deltaMs)
    {
      if mode == Stopwatch && stopwatchRunning {
        elapsedTime := elapsedTime + deltaMs;
      }
    }
  }
}
