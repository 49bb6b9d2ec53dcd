/** The work monitor of work_monitor.py: the session accumulator with its
    break rule, the Pomodoro timer state machine and the two time
    formatters. Every reading of the wall clock is an explicit `now`
    (seconds since the epoch, as a real standing for Python's float). */
module WorkMonitor {
  import opened Common
  import opened Text

  // ------------------------------------------------------------ numbers

  /** Python's `int(x)` on a float: truncation toward zero. */
  function Trunc(x: real): (n: int)
    ensures x >= 0.0 ==> n >= 0 && (n as real) <= x < (n as real) + 1.0
    ensures x <= 0.0 ==> n <= 0 && (n as real) - 1.0 < x <= (n as real)
  {
    if x >= 0.0 then x.Floor else -((-x).Floor)
  }

  /** Truncation is monotone. */
  lemma TruncMonotone(x: real, y: real)
    requires x <= y
    ensures Trunc(x) <= Trunc(y)
  {
  }

  /** Python's truthiness of an optional timestamp: None and 0.0 are false. */
  predicate IsSet(t: Option<real>)
  {
    t.Some? && t.value != 0.0
  }

  // ------------------------------------------------------------ session

  /** The session part of a `WorkMonitor`: the break interval in seconds,
      the session start, whether a session is running, the seconds worked
      earlier today and the time of the last break. */
  datatype Session = Session(
    breakInterval: int,
    start: Option<real>,
    isWorking: bool,
    totalToday: real,
    lastBreak: Option<real>)

  /** The constructor: the interval is given in minutes; `stored` is what
      `load_stats` read for today (reading the file is not modelled). */
  function NewSession(breakMinutes: int, stored: real): (s: Session)
    ensures s.breakInterval == 60 * breakMinutes
    ensures !s.isWorking && s.start.None? && s.lastBreak.None? && s.totalToday == stored
  {
    Session(breakMinutes * 60, None, false, stored, None)
  }

  /** The default interval of fifty minutes is 3000 seconds. */
  lemma DefaultInterval(stored: real)
    ensures NewSession(50, stored).breakInterval == 3000
  {
  }

  /** `start_session`: a session begins now and any recorded break is forgotten. */
  function StartSession(s: Session, now: real): (t: Session)
    ensures t.isWorking && t.start == Some(now) && t.lastBreak.None?
    ensures t.totalToday == s.totalToday && t.breakInterval == s.breakInterval
  {
    s.(start := Some(now), isWorking := true, lastBreak := None)
  }

  /** A running session whose start time Python treats as set. */
  predicate Active(s: Session)
  {
    s.isWorking && IsSet(s.start)
  }

  /** `stop_session`: a running session adds its length to today's total; the session ends either way. */
  function StopSession(s: Session, now: real): (t: Session)
    ensures !t.isWorking && t.start.None?
    ensures Active(s) ==> t.totalToday == s.totalToday + (now - s.start.value)
    ensures !Active(s) ==> t.totalToday == s.totalToday
    ensures t.breakInterval == s.breakInterval && t.lastBreak == s.lastBreak
  {
    var total := if Active(s) then s.totalToday + (now - s.start.value) else s.totalToday;
    s.(totalToday := total, isWorking := false, start := None)
  }

  /** `get_current_work_time`: today's seconds including the running session, truncated. */
  function CurrentWorkTime(s: Session, now: real): (n: int)
    ensures !Active(s) ==> n == 0
    ensures Active(s) && now >= s.start.value && s.totalToday >= 0.0 ==>
      n >= 0 && (n as real) <= (now - s.start.value) + s.totalToday < (n as real) + 1.0
  {
    if !Active(s) then 0 else Trunc((now - s.start.value) + s.totalToday)
  }

  /** Once a session is stopped the current work time reads 0 (the total stays in `totalToday`). */
  lemma StoppedReadsZero(s: Session, stop: real, now: real)
    ensures CurrentWorkTime(StopSession(s, stop), now) == 0
  {
  }

  /** Stopping a session that ran from `start` to `stop` keeps the seconds it counted:
      today's total afterwards is what the running session showed at `stop`, before truncation. */
  lemma StopKeepsWorkTime(s: Session, stop: real)
    requires Active(s) && stop >= s.start.value && s.totalToday >= 0.0
    ensures CurrentWorkTime(s, stop) == Trunc(StopSession(s, stop).totalToday)
  {
  }

  /** `should_take_break`: only during a session; measured from the last break when
      one is recorded (and not at time 0.0), otherwise from the session start. */
  predicate ShouldTakeBreak(s: Session, now: real)
  {
    if !Active(s) then false
    else if IsSet(s.lastBreak) then now - s.lastBreak.value >= s.breakInterval as real
    else now - s.start.value >= s.breakInterval as real
  }

  /** `record_break`: the break clock restarts now. */
  function RecordBreak(s: Session, now: real): (t: Session)
    ensures t.lastBreak == Some(now)
    ensures t.start == s.start && t.isWorking == s.isWorking
    ensures t.totalToday == s.totalToday && t.breakInterval == s.breakInterval
  {
    s.(lastBreak := Some(now))
  }

  /** The break rule never fires outside a session, and in a session it
      fires once the interval has passed since the last break or, without
      one, since the start. */
  lemma BreakRule(s: Session, now: real)
    ensures !Active(s) ==> !ShouldTakeBreak(s, now)
    ensures Active(s) && !IsSet(s.lastBreak) ==>
      (ShouldTakeBreak(s, now) <==> now >= s.start.value + s.breakInterval as real)
    ensures Active(s) && IsSet(s.lastBreak) ==>
      (ShouldTakeBreak(s, now) <==> now >= s.lastBreak.value + s.breakInterval as real)
  {
  }

  /** Right after a break is recorded no break is due, as long as the interval is positive. */
  lemma NoBreakRightAfterRecording(s: Session, now: real, later: real)
    requires s.breakInterval > 0 && now != 0.0
    requires now <= later < now + s.breakInterval as real
    ensures !ShouldTakeBreak(RecordBreak(s, now), later)
  {
  }

  /** A freshly started session waits the whole interval for its first break. */
  lemma FirstBreakAfterInterval(s: Session, start: real, now: real)
    requires start != 0.0
    ensures ShouldTakeBreak(StartSession(s, start), now) <==> now - start >= s.breakInterval as real
  {
  }

  // -------------------------------------------------------------- timer

  datatype TimerKind = Pomodoro | Break

  /** The timer fields of a `WorkMonitor`. */
  datatype Timer = Timer(
    start: Option<real>,
    duration: int,
    running: bool,
    paused: bool,
    pausedAt: real,
    elapsed: real,
    kind: Option<TimerKind>)

  const PomodoroSeconds: int := 25 * 60
  const BreakSeconds: int := 5 * 60

  /** The timer as the constructor leaves it. */
  const IdleTimer := Timer(None, 0, false, false, 0.0, 0.0, None)

  /** The shape every reachable timer has: a running timer has a start and a
      kind, a paused timer is running, and a stopped timer holds nothing. */
  predicate TimerInvariant(t: Timer)
  {
    && (t.running ==> t.start.Some? && t.kind.Some?)
    && (t.paused ==> t.running)
    && (!t.running ==> t.kind.None? && t.elapsed == 0.0)
  }

  /** `start_pomodoro` and `start_break`: a fresh countdown of the given kind, whatever ran before. */
  function StartTimer(kind: TimerKind, now: real): (t: Timer)
    ensures TimerInvariant(t)
    ensures t.running && !t.paused && t.elapsed == 0.0 && t.pausedAt == 0.0
    ensures t.kind == Some(kind) && t.start == Some(now)
    ensures t.duration == (if kind == Pomodoro then 1500 else 300)
  {
    var duration := match kind case Pomodoro => PomodoroSeconds case Break => BreakSeconds;
    Timer(Some(now), duration, true, false, 0.0, 0.0, Some(kind))
  }

  function StartPomodoro(now: real): (t: Timer)
    ensures t.duration == 1500 && t.kind == Some(Pomodoro)
  {
    StartTimer(Pomodoro, now)
  }

  function StartBreak(now: real): (t: Timer)
    ensures t.duration == 300 && t.kind == Some(Break)
  {
    StartTimer(Break, now)
  }

  /** `pause_timer`: banks the time since the (re)start; a no-op unless running and not paused.
      The source reads the start time here, so a running timer must have one. */
  function Pause(t: Timer, now: real): (u: Timer)
    requires t.running ==> t.start.Some?
    ensures !(t.running && !t.paused) ==> u == t
    ensures t.running && !t.paused ==>
      && u.paused && u.pausedAt == now
      && u.elapsed == t.elapsed + (now - t.start.value)
      && u.(paused := false, pausedAt := t.pausedAt, elapsed := t.elapsed) == t
  {
    if t.running && !t.paused then
      t.(pausedAt := now, elapsed := t.elapsed + (now - t.start.value), paused := true)
    else t
  }

  /** `resume_timer`: restarts the clock from now; a no-op unless paused. */
  function Resume(t: Timer, now: real): (u: Timer)
    ensures !t.paused ==> u == t
    ensures t.paused ==> !u.paused && u.start == Some(now) && u.(paused := true, start := t.start) == t
  {
    if t.paused then t.(start := Some(now), paused := false) else t
  }

  /** `stop_timer`: everything back to idle except the last duration, which the source keeps. */
  function Stop(t: Timer): (u: Timer)
    ensures TimerInvariant(u)
    ensures !u.running && !u.paused && u.start.None? && u.elapsed == 0.0 && u.kind.None?
    ensures u == IdleTimer.(duration := t.duration)
  {
    t.(running := false, paused := false, start := None, elapsed := 0.0, pausedAt := 0.0, kind := None)
  }

  /** Seconds the countdown has consumed at `now`. */
  function Consumed(t: Timer, now: real): real
    requires !t.paused ==> t.start.Some?
  {
    if t.paused then t.elapsed else t.elapsed + (now - t.start.value)
  }

  /** `get_timer_remaining`: 0 when not running, otherwise what is left of the
      duration, truncated and never below 0. */
  function Remaining(t: Timer, now: real): (r: int)
    requires t.running && !t.paused ==> t.start.Some?
    ensures r >= 0
    ensures !t.running ==> r == 0
    ensures t.running ==> r == (if t.duration as real - Consumed(t, now) <= 0.0 then 0
                                else Trunc(t.duration as real - Consumed(t, now)))
  {
    if !t.running then 0
    else
      var remaining := t.duration as real - Consumed(t, now);
      Max(0, Trunc(remaining))
  }

  function Max(a: int, b: int): int { if a >= b then a else b }

  /** The operations keep the timer's shape. */
  lemma InvariantPreserved(t: Timer, now: real)
    requires TimerInvariant(t)
    ensures TimerInvariant(Pause(t, now))
    ensures TimerInvariant(Resume(t, now))
    ensures TimerInvariant(Stop(t))
  {
  }

  /** A countdown never shows more than its duration while the clock has not gone backwards. */
  lemma RemainingAtMostDuration(t: Timer, now: real)
    requires t.running && !t.paused ==> t.start.Some? && now >= t.start.value
    requires t.elapsed >= 0.0 && t.duration >= 0
    ensures Remaining(t, now) <= t.duration
  {
    if t.running {
      TruncMonotone(t.duration as real - Consumed(t, now), t.duration as real);
    }
  }

  /** While paused, the remaining time does not move. */
  lemma PausedIsFrozen(t: Timer, now1: real, now2: real)
    requires t.paused
    ensures Remaining(t, now1) == Remaining(t, now2)
  {
  }

  /** Pausing at `p` and resuming at `q` leaves at `q` exactly what was left at `p`. */
  lemma PauseResumeKeepsRemaining(t: Timer, p: real, q: real)
    requires t.running && !t.paused && t.start.Some?
    ensures Remaining(Resume(Pause(t, p), q), q) == Remaining(t, p)
    ensures Remaining(Pause(t, p), q) == Remaining(t, p)
  {
  }

  /** The time left only shrinks as the clock advances. */
  lemma RemainingNonIncreasing(t: Timer, now1: real, now2: real)
    requires t.running && !t.paused ==> t.start.Some?
    requires now1 <= now2
    ensures Remaining(t, now2) <= Remaining(t, now1)
  {
    if t.running && !t.paused {
      TruncMonotone(t.duration as real - Consumed(t, now2), t.duration as real - Consumed(t, now1));
    }
  }

  /** A Pomodoro started at `s` runs out exactly 1500 seconds later. */
  lemma PomodoroRunsOut(s: real, now: real)
    requires now >= s
    ensures Remaining(StartPomodoro(s), now) == 0 <==> now - s > 1499.0
  {
  }

  // --------------------------------------------------------- formatters

  /** `format_time(seconds)`: `HH:MM:SS` from float floor division and modulo. */
  function FormatTime(seconds: real): string
  {
    Clock3(HoursOf(seconds), MinutesOf(seconds), SecondsOf(seconds))
  }

  /** `int(seconds // 3600)`. */
  function HoursOf(seconds: real): int
  {
    (seconds / 3600.0).Floor
  }

  /** `int((seconds % 3600) // 60)`. */
  function MinutesOf(seconds: real): int
  {
    ((seconds - 3600.0 * (HoursOf(seconds) as real)) / 60.0).Floor
  }

  /** `int(seconds % 60)`. */
  function SecondsOf(seconds: real): int
  {
    Trunc(seconds - 60.0 * ((seconds / 60.0).Floor as real))
  }

  /** `format_timer_time(seconds)`: `MM:SS`, minutes not wrapped at an hour. */
  function FormatTimerTime(seconds: real): string
  {
    Clock2(TotalMinutesOf(seconds), SecondsOf(seconds))
  }

  /** `int(seconds // 60)`. */
  function TotalMinutesOf(seconds: real): int
  {
    (seconds / 60.0).Floor
  }

  /** Floor division of a real by a positive integer is floor division of its floor. */
  lemma FloorDiv(x: real, d: int)
    requires d > 0
    ensures (x / (d as real)).Floor == x.Floor / d
  {
    var n := x.Floor;
    var q := n / d;
    var y := x / (d as real);
    assert y * (d as real) == x;
    assert q * d <= n < (q + 1) * d;
    assert (q as real) * (d as real) <= x;
    assert x < ((q + 1) as real) * (d as real);
    ProductSign((q as real) - y, d as real);
    ProductSign(y - ((q + 1) as real), d as real);
    assert (q as real) <= y < ((q + 1) as real);
  }

  /** A positive factor keeps the sign of the other. */
  lemma ProductSign(a: real, b: real)
    requires b > 0.0
    ensures a * b <= 0.0 ==> a <= 0.0
    ensures a * b < 0.0 ==> a < 0.0
  {
    if a > 0.0 {
      assert a * b > 0.0;
    }
  }

  /** The float modulo by a positive integer, truncated, is the integer modulo of the floor. */
  lemma FloorMod(x: real, d: int)
    requires d > 0
    ensures Trunc(x - (d as real) * ((x / (d as real)).Floor as real)) == x.Floor % d
  {
    FloorDiv(x, d);
    var q := x.Floor / d;
    assert (d as real) * (q as real) == (d * q) as real;
  }

  /** The fields `format_time` computes from `x` are the hour, minute and second fields of ⌊x⌋. */
  lemma FormatTimeFields(x: real)
    ensures var n := x.Floor;
      FormatTime(x) == Clock3(n / 3600, (n % 3600) / 60, n % 60)
  {
    HoursField(x);
    MinutesField(x);
    SecondsField(x);
  }

  lemma HoursField(x: real)
    ensures HoursOf(x) == x.Floor / 3600
  {
    FloorDiv(x, 3600);
  }

  lemma MinutesField(x: real)
    ensures MinutesOf(x) == (x.Floor % 3600) / 60
  {
    HoursField(x);
    var h := x.Floor / 3600;
    var rest := x - 3600.0 * (h as real);
    assert rest.Floor == x.Floor % 3600 by {
      assert 3600.0 * (h as real) == (3600 * h) as real;
    }
    FloorDiv(rest, 60);
  }

  lemma SecondsField(x: real)
    ensures SecondsOf(x) == x.Floor % 60
  {
    FloorMod(x, 60);
  }

  /** For a non-negative time, `format_time` shows fields below 60 that add back up to ⌊x⌋ seconds. */
  lemma FormatTimeReadsBack(x: real)
    requires x >= 0.0
    ensures var c := ReadClock3(FormatTime(x));
      && c.Some?
      && c.value.1 < 60 && c.value.2 < 60
      && c.value.0 * 3600 + c.value.1 * 60 + c.value.2 == x.Floor
  {
    FormatTimeFields(x);
    HmsReadsBack(x.Floor);
  }

  /** The fields `format_timer_time` computes from `x` are the minute and second fields of ⌊x⌋. */
  lemma FormatTimerTimeFields(x: real)
    ensures FormatTimerTime(x) == Clock2(x.Floor / 60, x.Floor % 60)
  {
    TotalMinutesField(x);
    SecondsField(x);
  }

  /** The minutes of the timer display are the whole minutes of ⌊x⌋, not wrapped at an hour. */
  lemma TotalMinutesField(x: real)
    ensures TotalMinutesOf(x) == x.Floor / 60
  {
    FloorDiv(x, 60);
  }

  /** For a non-negative time, `format_timer_time` shows seconds below 60 and unbounded minutes adding up to ⌊x⌋. */
  lemma FormatTimerTimeReadsBack(x: real)
    requires x >= 0.0
    ensures var c := ReadClock2(FormatTimerTime(x));
      && c.Some?
      && c.value.1 < 60
      && c.value.0 * 60 + c.value.1 == x.Floor
  {
    FormatTimerTimeFields(x);
    MsReadsBack(x.Floor);
  }
}
