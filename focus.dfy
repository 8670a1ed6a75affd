/**
 * The Pomodoro timer of `src/pages/FocusPage.jsx`: its four state fields,
 * the one-second tick, the completion at zero, reset and play/pause, and the
 * `mm:ss` display. A tick is a method call; the interval, the sound and the
 * vibration are not part of this model.
 */
module Focus {
  import opened Text

  const PomodoroTime: nat := 25 * 60
  const ShortBreakTime: nat := 5 * 60
  const LongBreakTime: nat := 15 * 60

  /** `timerMode`: 'pomodoro', 'shortBreak' or 'longBreak'. */
  datatype Mode = Pomodoro | ShortBreak | LongBreak

  /** The full length, in seconds, of a phase of the given mode. */
  function Duration(m: Mode): nat
  {
    match m
    case Pomodoro => PomodoroTime
    case ShortBreak => ShortBreakTime
    case LongBreak => LongBreakTime
  }

  /** The page's four state fields as one value. */
  datatype Timer = Timer(mode: Mode, remaining: int, running: bool, count: nat)

  /** The state on first render, and after reset. */
  const Initial: Timer := Timer(Pomodoro, PomodoroTime, false, 0)

  /** The remaining time lies within the current phase. */
  predicate InRange(t: Timer)
  {
    0 <= t.remaining <= Duration(t.mode)
  }

  /** One interval callback: a second comes off while running and not yet at zero. */
  function Ticked(t: Timer): Timer
  {
    if !t.running || t.remaining == 0 then t else t.(remaining := t.remaining - 1)
  }

  /** The mode that follows a finished phase, and the round count after it. */
  function NextPhase(mode: Mode, count: nat): (r: (Mode, nat))
    ensures mode == Pomodoro ==> r.1 == count + 1 && r.0 != Pomodoro && (r.0 == LongBreak <==> r.1 % 4 == 0)
    ensures mode != Pomodoro ==> r == (Pomodoro, count)
  {
    if mode == Pomodoro then
      var newCount := count + 1;
      (if newCount % 4 == 0 then LongBreak else ShortBreak, newCount)
    else (Pomodoro, count)
  }

  /** The completion effect: at zero the timer stops and the next phase starts in full. */
  function Completed(t: Timer): Timer
  {
    if t.remaining != 0 then t
    else
      var (mode, count) := NextPhase(t.mode, t.count);
      Timer(mode, Duration(mode), false, count)
  }

  /** The play/pause button. */
  function Toggled(t: Timer): Timer
  {
    t.(running := !t.running)
  }

  /**
   * A tick takes off exactly one second, and only while running above zero;
   * it changes nothing else and keeps the remaining time in range.
   */
  lemma TickSpec(t: Timer)
    requires InRange(t)
    ensures InRange(Ticked(t))
    ensures Ticked(t).mode == t.mode && Ticked(t).running == t.running && Ticked(t).count == t.count
    ensures Ticked(t).remaining == if t.running && t.remaining > 0 then t.remaining - 1 else t.remaining
  {
  }

  /**
   * Completion: a finished focus phase stops, counts one round and starts a
   * long break on every fourth round and a short one otherwise; a finished
   * break stops and starts a full focus phase with the count unchanged.
   * Before zero nothing happens.
   */
  lemma CompleteSpec(t: Timer)
    ensures t.remaining != 0 ==> Completed(t) == t
    ensures t.remaining == 0 && t.mode == Pomodoro ==>
      var c := t.count + 1;
      Completed(t) == Timer(if c % 4 == 0 then LongBreak else ShortBreak, if c % 4 == 0 then 900 else 300, false, c)
    ensures t.remaining == 0 && t.mode != Pomodoro ==> Completed(t) == Timer(Pomodoro, 1500, false, t.count)
    ensures InRange(t) ==> InRange(Completed(t))
  {
  }

  /** Play/pause flips the running flag and nothing else; twice is no change. */
  lemma ToggleSpec(t: Timer)
    ensures Toggled(t).running == !t.running && Toggled(t).(running := t.running) == t
    ensures Toggled(Toggled(t)) == t
    ensures InRange(t) ==> InRange(Toggled(t))
  {
  }

  /**
   * A whole round: a focus phase that runs out, then the break after it runs
   * out, leaves a full stopped focus phase and one more round on the counter.
   */
  lemma RoundTrip(t: Timer)
    requires t.mode == Pomodoro && t.remaining == 0
    ensures Completed(Completed(t).(remaining := 0)) == Timer(Pomodoro, PomodoroTime, false, t.count + 1)
  {
  }

  // ---------------------------------------------------------------- display

  /** `displayTime`: whole minutes and seconds, each padded to two digits. */
  function DisplayTime(t: nat): string
  {
    Pad2(t / 60) + ":" + Pad2(t % 60)
  }

  /**
   * Below 100 minutes the display is "mm:ss": five characters, digits around
   * a colon, that read back as `t`.
   */
  lemma DisplayTimeReads(t: nat)
    requires t < 6000
    ensures var r := DisplayTime(t);
      |r| == 5 && r[2] == ':' && AllDigits(r[..2]) && AllDigits(r[3..])
      && DigitsValue(r[3..]) < 60 && DigitsValue(r[..2]) * 60 + DigitsValue(r[3..]) == t
  {
    Pad2Digits(t / 60);
    Pad2Digits(t % 60);
    var r := DisplayTime(t);
    assert r[..2] == Pad2(t / 60) && r[3..] == Pad2(t % 60);
  }

  /** Different times in range never show the same text. */
  lemma DisplayTimeInjective(a: nat, b: nat)
    requires a < 6000 && b < 6000
    ensures DisplayTime(a) == DisplayTime(b) <==> a == b
  {
    if DisplayTime(a) == DisplayTime(b) {
      DisplayTimeReads(a);
      DisplayTimeReads(b);
    }
  }

  /** `getModeTitle()`; the source's default 'FOCUS' answers no mode of the three. */
  function ModeTitle(m: Mode): (title: string)
    ensures title == "FOCUS TIME" <==> m == Pomodoro
    ensures title == "SHORT BREAK" <==> m == ShortBreak
    ensures title == "LONG BREAK" <==> m == LongBreak
  {
    match m
    case Pomodoro => "FOCUS TIME"
    case ShortBreak => "SHORT BREAK"
    case LongBreak => "LONG BREAK"
  }

  // ---------------------------------------------------------------- the page's state

  /** `FocusPage`'s state hooks as fields. */
  class FocusTimer {
    var mode: Mode
    var remaining: int
    var running: bool
    var count: nat

    function State(): Timer
      reads this
    {
      Timer(mode, remaining, running, count)
    }

    predicate Valid()
      reads this
    {
      InRange(State())
    }

    constructor ()
      ensures State() == Initial && Valid()
    {
      mode := Pomodoro;
      remaining := PomodoroTime;
      running := false;
      count := 0;
    }

    /** The interval callback `prevTime - 1`, scheduled only while running above zero. */
    method Tick()
      requires Valid()
      modifies this
      ensures Valid() && State() == Ticked(old(State()))
    {
      if !running || remaining == 0 {
        return;
      }
      remaining := remaining - 1;
    }

    /** The effect that runs when the remaining time reaches zero. */
    method Complete()
      requires Valid()
      modifies this
      ensures Valid() && State() == Completed(old(State()))
    {
      if remaining != 0 {
        return;
      }
      running := false;
      var nextMode := Pomodoro;
      var nextTime := PomodoroTime;
      var newCount := count;
      if mode == Pomodoro {
        newCount := newCount + 1;
        count := newCount;
        if newCount % 4 == 0 {
          nextMode := LongBreak;
          nextTime := LongBreakTime;
        } else {
          nextMode := ShortBreak;
          nextTime := ShortBreakTime;
        }
      } else {
        nextMode := Pomodoro;
        nextTime := PomodoroTime;
      }
      mode := nextMode;
      remaining := nextTime;
    }

    /** `handleReset`. */
    method Reset()
      modifies this
      ensures Valid() && State() == Initial
    {
      running := false;
      mode := Pomodoro;
      remaining := PomodoroTime;
      count := 0;
    }

    /** The play/pause button's `setIsRunning(!isRunning)`. */
    method Toggle()
      requires Valid()
      modifies this
      ensures Valid() && State() == Toggled(old(State()))
    {
      running := !running;
    }

    /** The text the panel shows: the mode's title and the time. */
    method Display() returns (title: string, time: string)
      requires Valid()
      ensures title == ModeTitle(mode) && time == DisplayTime(remaining)
      ensures |time| == 5 && time[2] == ':'
    {
      title := ModeTitle(mode);
      time := DisplayTime(remaining);
      DisplayTimeReads(remaining);
    }
  }
}
