/** Runs of the countdown page, proved from the timer's contracts alone. */
module CountdownScenarios {
  import opened Options
  import opened Countdown

  /** Pressing start twice, with a date chosen, leaves exactly one live interval. */
  method StartTwice(timer: Timer)
    requires timer.Valid() && timer.userSelectedDate.Some?
    modifies timer
    ensures timer.Valid() && timer.intervalId.Some? && |timer.liveIntervals| == 1
  {
    timer.Start();
    timer.Start();
  }

  /** Every field of the timer, for comparing two states of it. */
  datatype TimerFields = TimerFields(
    intervalId: Option<nat>, userSelectedDate: Option<int>, startDisabled: bool, pickerDisabled: bool,
    display: seq<string>, toasts: seq<Toast>, liveIntervals: set<nat>, nextIntervalId: nat)

  function FieldsOf(timer: Timer): (f: TimerFields)
    reads timer
  {
    TimerFields(timer.intervalId, timer.userSelectedDate, timer.startDisabled, timer.pickerDisabled,
      timer.display, timer.toasts, timer.liveIntervals, timer.nextIntervalId)
  }

  /** Stopping twice is stopping once: `afterOnce` is the state the first stop leaves, and the
      second stop leaves every field as it was. */
  method StopTwice(timer: Timer) returns (ghost afterOnce: TimerFields)
    requires timer.Valid()
    modifies timer
    ensures timer.Valid() && timer.IsStopped()
    ensures timer.nextIntervalId == old(timer.nextIntervalId) && timer.toasts == old(timer.toasts)
    ensures FieldsOf(timer) == afterOnce
  {
    timer.Stop();
    afterOnce := FieldsOf(timer);
    timer.Stop();
  }

  /** A date 1.5 s ahead is accepted, and start then runs the countdown. */
  method StartOneAndAHalfSecondsAhead(timer: Timer, t0: int)
    requires timer.Valid() && timer.intervalId.None?
    modifies timer
    ensures timer.Valid() && timer.intervalId.Some? && timer.userSelectedDate == Some(t0 + 1500)
    ensures timer.startDisabled && timer.pickerDisabled
  {
    timer.OnClose(t0, [t0 + 1500]);
    assert !timer.startDisabled;
    timer.Start();
  }

  /** With the countdown running towards `date`, a tick less than a second before it keeps the
      countdown running, with the same date and both controls locked, and shows "00" in every slot. */
  method TickInLastSecond(timer: Timer, date: int, early: int)
    requires timer.Valid() && timer.intervalId.Some? && timer.userSelectedDate == Some(date)
    requires 0 < date - early < Second
    modifies timer
    ensures timer.Valid() && timer.intervalId == old(timer.intervalId) && timer.userSelectedDate == Some(date)
    ensures timer.startDisabled && timer.pickerDisabled
    ensures timer.display == ["00", "00", "00", "00"]
  {
    ghost var left := TimeLeft(timer.userSelectedDate, early);
    timer.Tick(early);
    UnderASecondShowsZero(left);
  }

  /** A tick at or after the chosen date stops the countdown. */
  method TickAtOrAfterDate(timer: Timer, date: int, late: int)
    requires timer.Valid() && timer.userSelectedDate == Some(date) && late >= date
    modifies timer
    ensures timer.Valid() && timer.IsStopped()
  {
    timer.Tick(late);
  }

  /** The whole run: select a date 1.5 s ahead, start, tick after one second (half a second left,
      "00" shown, still running) and after two seconds; the page ends stopped. */
  method CountdownFromOneAndAHalfSeconds(timer: Timer, t0: int)
    requires timer.Valid() && timer.intervalId.None?
    modifies timer
    ensures timer.Valid() && timer.IsStopped()
  {
    StartOneAndAHalfSecondsAhead(timer, t0);
    TickInLastSecond(timer, t0 + 1500, t0 + 1000);
    TickAtOrAfterDate(timer, t0 + 1500, t0 + 2000);
  }

  /**
   * The two thresholds differ: a date half a second ahead is rejected on selection (more than a
   * second is needed), yet `timer.start`, which does not look at the button, still counts down
   * to it, since a tick only stops once no time at all is left.
   */
  method StartAfterRejectedDate(timer: Timer, now: int)
    requires timer.Valid() && timer.intervalId.None?
    modifies timer
    ensures timer.Valid() && timer.userSelectedDate == Some(now + 500)
    ensures timer.toasts == old(timer.toasts) + [PastDateToast]
    ensures timer.intervalId.Some? && timer.startDisabled && timer.pickerDisabled
    ensures timer.display == ["00", "00", "00", "00"]
  {
    timer.OnClose(now, [now + 500]);
    timer.Start();
    ghost var left := TimeLeft(timer.userSelectedDate, now + 499);
    timer.Tick(now + 499);
    UnderASecondShowsZero(left);
  }

  /** A date half a second ahead is recorded but rejected: start is disabled and one error toast shows. */
  method SelectHalfSecondAhead(timer: Timer, now: int)
    requires timer.Valid() && timer.intervalId.None?
    modifies timer
    ensures timer.Valid() && timer.userSelectedDate == Some(now + 500)
    ensures timer.startDisabled && timer.toasts == old(timer.toasts) + [PastDateToast]
  {
    timer.OnClose(now, [now + 500]);
  }
}
