/**
 * The countdown timer page: a date picker whose close handler checks that the
 * chosen instant lies in the future, and a timer object that counts down to it
 * once a second, writing days, hours, minutes and seconds into four slots.
 *
 * Instants and durations are whole milliseconds (`int`). The clock is the
 * parameter `now`; the browser's interval table is the pair of fields
 * `liveIntervals` and `nextIntervalId`; the DOM is the fields `startDisabled`,
 * `pickerDisabled` and `display`, and the error toasts shown are `toasts`.
 */
module Countdown {
  import opened Options
  import opened Decimal

  // Milliseconds per unit of time.
  const Second := 1000
  const Minute := Second * 60
  const Hour := Minute * 60
  const Day := Hour * 24

  /** The object `{ days, hours, minutes, seconds }`. */
  datatype TimeData = TimeData(days: int, hours: int, minutes: int, seconds: int)

  /** The duration, in milliseconds, that a breakdown stands for. */
  function TotalMs(t: TimeData): (ms: int) {
    t.days * Day + t.hours * Hour + t.minutes * Minute + t.seconds * Second
  }

  /** A breakdown whose fields are within their units' ranges. */
  predicate InRange(t: TimeData) {
    0 <= t.days && 0 <= t.hours < 24 && 0 <= t.minutes < 60 && 0 <= t.seconds < 60
  }

  /** A multiple of `b` leaves no Euclidean remainder. */
  lemma MultipleHasNoRemainder(b: int, q: int)
    requires b > 0
    ensures (b * q) % b == 0
  {
    var m := b * q;
    var k := q - m / b;
    assert m % b == b * k by {
      assert m == b * (m / b) + m % b;
    }
  }

  /** The remainder of truncating division: for `a >= 0` Dafny's `%`, for `a < 0` its mirror image. */
  lemma TruncatedRemainder(a: int, b: int)
    requires b > 0
    ensures var r := if a >= 0 then a % b else -((-a) % b);
      -b < r < b && (r == 0 || (r > 0) == (a > 0)) && (a - r) % b == 0
  {
    if a >= 0 {
      var q := a / b;
      assert a - a % b == b * q;
      MultipleHasNoRemainder(b, q);
    } else {
      var q := (-a) / b;
      assert a + (-a) % b == b * -q;
      MultipleHasNoRemainder(b, -q);
    }
  }

  /**
   * JavaScript's `a % b` for `b > 0`: the remainder of truncating division,
   * so it is smaller than `b` in magnitude, takes the sign of `a` and differs
   * from `a` by a multiple of `b`.
   */
  function JsRem(a: int, b: int): (r: int)
    requires b > 0
    ensures -b < r < b
    ensures r == 0 || (r > 0) == (a > 0)
    ensures (a - r) % b == 0
  {
    TruncatedRemainder(a, b);
    if a >= 0 then a % b else -((-a) % b)
  }

  /**
   * `convertMs`: splits a duration into days, hours, minutes and seconds.
   * `Math.floor(x / u)` for a unit `u > 0` is Dafny's `x / u`. For a duration
   * that is not negative every field is in range and only the sub-second
   * remainder is dropped.
   */
  function ConvertMs(ms: int): (t: TimeData)
    ensures ms >= 0 ==> InRange(t)
    ensures ms >= 0 ==> TotalMs(t) <= ms < TotalMs(t) + Second
  {
    var days := ms / Day;
    var hours := JsRem(ms, Day) / Hour;
    var minutes := JsRem(JsRem(ms, Day), Hour) / Minute;
    var seconds := JsRem(JsRem(JsRem(ms, Day), Hour), Minute) / Second;
    TimeData(days, hours, minutes, seconds)
  }

  /** Euclidean division recovers the quotient and remainder it was built from. */
  lemma DivModOfSum(q: int, u: int, rest: int)
    requires u > 0 && 0 <= rest < u
    ensures (q * u + rest) / u == q && (q * u + rest) % u == rest
  {
    var x := q * u + rest;
    var d := x / u - q;
    assert u * d == rest - x % u;
    assert d > 0 ==> u * d >= u;
  }

  /** The breakdown is unique: an in-range breakdown plus less than a second converts back to itself. */
  lemma ConvertMsInverse(t: TimeData, extra: int)
    requires InRange(t) && 0 <= extra < Second
    ensures ConvertMs(TotalMs(t) + extra) == t
  {
    var inMinute := t.seconds * Second + extra;
    DivModOfSum(t.seconds, Second, extra);
    var inHour := t.minutes * Minute + inMinute;
    DivModOfSum(t.minutes, Minute, inMinute);
    var inDay := t.hours * Hour + inHour;
    DivModOfSum(t.hours, Hour, inHour);
    DivModOfSum(t.days, Day, inDay);
    assert TotalMs(t) + extra == t.days * Day + inDay;
  }

  /** `String(value).padStart(width, fill)`. */
  function PadStart(s: string, width: nat, fill: char): (r: string)
    ensures |r| == if |s| >= width then |s| else width
    ensures r[|r| - |s|..] == s
    ensures forall i :: 0 <= i < |r| - |s| ==> r[i] == fill
    decreases width - |s|
  {
    if |s| >= width then s else PadStart([fill] + s, width, fill)
  }

  /** `addLeadingZero`: the decimal text of `value`, padded on the left with '0' to two characters. */
  function AddLeadingZero(value: int): (r: string)
    ensures |r| >= 2
    ensures 0 <= value <= 9 ==> r == ['0', DigitChar(value)]
    ensures value >= 10 || value < 0 ==> r == DecimalString(value)
  {
    PadStart(DecimalString(value), 2, '0')
  }

  /** A padded field still reads back as its value. */
  lemma AddLeadingZeroRoundTrip(value: nat)
    ensures AllDigits(AddLeadingZero(value)) && DigitsValue(AddLeadingZero(value)) == value
  {
    NaturalStringRoundTrip(value);
    if value <= 9 {
      LeadingZeroValue(NaturalString(value));
      assert AddLeadingZero(value) == "0" + NaturalString(value);
    }
  }

  /** `formatTimeData`: the same keys, each value padded by `addLeadingZero`. */
  method FormatTimeData(timerData: map<string, int>) returns (formatted: map<string, string>)
    ensures formatted.Keys == timerData.Keys
    ensures forall key :: key in timerData ==> formatted[key] == AddLeadingZero(timerData[key])
  {
    formatted := map[];
    var keys := timerData.Keys;
    while keys != {}
      invariant keys <= timerData.Keys
      invariant formatted.Keys == timerData.Keys - keys
      invariant forall key :: key in formatted ==> formatted[key] == AddLeadingZero(timerData[key])
      decreases keys
    {
      var key :| key in keys;
      formatted := formatted[key := AddLeadingZero(timerData[key])];
      keys := keys - {key};
    }
  }

  /** The breakdown as the JavaScript object `convertMs` returns. */
  function Fields(t: TimeData): (fields: map<string, int>) {
    map["days" := t.days, "hours" := t.hours, "minutes" := t.minutes, "seconds" := t.seconds]
  }

  /** The keys of `refs.timer`, in order: one display slot per field. */
  const SlotKeys: seq<string> := ["daysEl", "hoursEl", "minutesEl", "secondsEl"]

  /** `elemKey.slice(0, -2)`: the slot name without its last two characters. */
  function ValueKey(elemKey: string): (key: string) {
    if |elemKey| >= 2 then elemKey[..|elemKey| - 2] else ""
  }

  /** The slot named `x + "El"` is fed from the value under `x`. */
  lemma ValueKeyDropsSuffix(x: string)
    ensures ValueKey(x + "El") == x
  {
    assert (x + "El")[..|x|] == x;
  }

  /** Each slot of `refs.timer` is fed from the field it is named after. */
  lemma SlotValueKeys()
    ensures ValueKey(SlotKeys[0]) == "days" && ValueKey(SlotKeys[1]) == "hours"
    ensures ValueKey(SlotKeys[2]) == "minutes" && ValueKey(SlotKeys[3]) == "seconds"
  {
    assert "daysEl"[..4] == "days";
    assert "hoursEl"[..5] == "hours";
    assert "minutesEl"[..7] == "minutes";
    assert "secondsEl"[..7] == "seconds";
  }

  /** What the four slots show for a breakdown, in the order of `SlotKeys`: each field padded. */
  function SlotTexts(t: TimeData): (r: seq<string>)
    ensures |r| == |SlotKeys|
  {
    [AddLeadingZero(t.days), AddLeadingZero(t.hours), AddLeadingZero(t.minutes), AddLeadingZero(t.seconds)]
  }

  /** A zero breakdown shows "00" in every slot. */
  lemma ZeroSlotTexts()
    ensures SlotTexts(TimeData(0, 0, 0, 0)) == ["00", "00", "00", "00"]
  {
    assert AddLeadingZero(0) == "00";
  }

  /** Less than a second left shows "00" in every slot: the breakdown rounds down. */
  lemma UnderASecondShowsZero(ms: int)
    requires 0 <= ms < Second
    ensures SlotTexts(ConvertMs(ms)) == ["00", "00", "00", "00"]
  {
    var t := ConvertMs(ms);
    assert t == TimeData(0, 0, 0, 0) by {
      assert InRange(t) && TotalMs(t) <= ms;
    }
    ZeroSlotTexts();
  }

  /** Looking up each key of the breakdown object gives its field. */
  lemma FieldsLookup(t: TimeData)
    ensures Fields(t).Keys == {"days", "hours", "minutes", "seconds"}
    ensures Fields(t)["days"] == t.days && Fields(t)["hours"] == t.hours
    ensures Fields(t)["minutes"] == t.minutes && Fields(t)["seconds"] == t.seconds
  {
    assert "minutes"[0] != "seconds"[0];
  }

  /** `updateTimerMarkup(refs.timer, formatTimeData(t))` shows `SlotTexts(t)`: its key mapping
      takes every slot to the field it is named after. */
  lemma MarkupShowsSlotTexts(t: TimeData, formatted: map<string, string>)
    requires formatted.Keys == Fields(t).Keys
    requires forall key :: key in Fields(t) ==> formatted[key] == AddLeadingZero(Fields(t)[key])
    ensures forall i :: 0 <= i < |SlotKeys| ==>
      ValueKey(SlotKeys[i]) in formatted && formatted[ValueKey(SlotKeys[i])] == SlotTexts(t)[i]
  {
    SlotValueKeys();
    FieldsLookup(t);
    forall i | 0 <= i < |SlotKeys|
      ensures ValueKey(SlotKeys[i]) in formatted && formatted[ValueKey(SlotKeys[i])] == SlotTexts(t)[i]
    {
      if i == 0 {
        assert formatted["days"] == AddLeadingZero(t.days);
      } else if i == 1 {
        assert formatted["hours"] == AddLeadingZero(t.hours);
      } else if i == 2 {
        assert formatted["minutes"] == AddLeadingZero(t.minutes);
      } else {
        assert formatted["seconds"] == AddLeadingZero(t.seconds);
      }
    }
  }

  /** `isFutureDate`: the selection lies more than a second after now. */
  predicate IsFutureDate(currentDate: int, userSelectedDate: int) {
    userSelectedDate - currentDate > 1000
  }

  /** The margin is strict: exactly one second ahead is rejected, one millisecond more is accepted. */
  lemma FutureMarginIsStrict(now: int)
    ensures !IsFutureDate(now, now + 1000)
    ensures IsFutureDate(now, now + 1001)
  {
  }

  /** `userSelectedDate - currentTime` in `tick`, where `null` converts to 0. */
  function TimeLeft(userSelectedDate: Option<int>, currentTime: int): (ms: int) {
    (if userSelectedDate.Some? then userSelectedDate.value else 0) - currentTime
  }

  /** A date accepted at `now` still has time left at a tick up to a second later, so the first
      tick of a countdown started at once never stops it. */
  lemma AcceptedDateHasTimeLeft(now: int, selected: int, tickTime: int)
    requires IsFutureDate(now, selected) && tickTime <= now + Second
    ensures TimeLeft(Some(selected), tickTime) > 0
  {
  }

  /** An error toast, as passed to `iziToast.show`. */
  datatype Toast = Toast(title: string, message: string, cssClass: string, timeout: int)

  /** The toast `showMessage` raises when the chosen date is not in the future. */
  const PastDateToast := Toast("Error", "Please choose a date in the future", "custom-error-toast", 3000)

  /**
   * The page's mutable state: the `timer` object's `intervalId`, the module
   * variable `userSelectedDate`, the DOM elements it drives and the toasts shown.
   */
  class Timer {
    var intervalId: Option<nat>
    var userSelectedDate: Option<int>
    var startDisabled: bool
    var pickerDisabled: bool
    /** Text content of the slots of `refs.timer`, in the order of `SlotKeys`. */
    var display: seq<string>
    var toasts: seq<Toast>
    /** The browser's live intervals, and the id the next `setInterval` hands out (ids start at 1, so they are truthy). */
    var liveIntervals: set<nat>
    var nextIntervalId: nat

    /** The timer owns at most one live interval, and it is the one it holds; the picker is locked
        exactly while the timer runs, and a running timer has a date and a locked start button. */
    ghost predicate Valid()
      reads this
    {
      && |display| == |SlotKeys|
      && nextIntervalId >= 1
      && liveIntervals == (if intervalId.Some? then {intervalId.value} else {})
      && (intervalId.Some? ==> 1 <= intervalId.value < nextIntervalId)
      && (pickerDisabled <==> intervalId.Some?)
      && (intervalId.Some? ==> userSelectedDate.Some? && startDisabled)
    }

    /** Idle, with no date, both controls enabled and every slot showing "00". */
    ghost predicate IsStopped()
      reads this
    {
      && intervalId.None? && userSelectedDate.None?
      && !startDisabled && !pickerDisabled
      && liveIntervals == {}
      && display == ["00", "00", "00", "00"]
    }

    /** The page as loaded: nothing selected, no interval, and the markup's button state and slot texts. */
    constructor (startBtnDisabled: bool, initialDisplay: seq<string>)
      requires |initialDisplay| == |SlotKeys|
      ensures Valid()
      ensures intervalId == None && userSelectedDate == None && liveIntervals == {}
      ensures startDisabled == startBtnDisabled && !pickerDisabled
      ensures display == initialDisplay && toasts == []
    {
      intervalId := None;
      userSelectedDate := None;
      startDisabled := startBtnDisabled;
      pickerDisabled := false;
      display := initialDisplay;
      toasts := [];
      liveIntervals := {};
      nextIntervalId := 1;
    }

    /** `setInterval`: registers a new interval and returns its id, which is truthy (at least 1)
        and differs from every live one, as long as every live id is below the counter. */
    method SetInterval() returns (id: nat)
      requires nextIntervalId >= 1 && forall i :: i in liveIntervals ==> i < nextIntervalId
      modifies this`liveIntervals, this`nextIntervalId
      ensures id >= 1 && id !in old(liveIntervals)
      ensures id == old(nextIntervalId) && nextIntervalId == id + 1
      ensures liveIntervals == old(liveIntervals) + {id}
    {
      id := nextIntervalId;
      nextIntervalId := nextIntervalId + 1;
      liveIntervals := liveIntervals + {id};
    }

    /** `clearInterval`: cancels the interval, if there is one. */
    method ClearInterval(id: Option<nat>)
      modifies this`liveIntervals
      ensures liveIntervals == if id.Some? then old(liveIntervals) - {id.value} else old(liveIntervals)
    {
      if id.Some? {
        liveIntervals := liveIntervals - {id.value};
      }
    }

    /** `timer.start`: a no-op while running or without a date; otherwise locks both controls and starts ticking. */
    method Start()
      requires Valid()
      modifies this
      ensures Valid()
      ensures old(intervalId.Some? || userSelectedDate.None?) ==> unchanged(this)
      ensures old(intervalId.None? && userSelectedDate.Some?) ==>
        && startDisabled && pickerDisabled
        && intervalId == Some(old(nextIntervalId)) && liveIntervals == {old(nextIntervalId)}
        && nextIntervalId == old(nextIntervalId) + 1
        && userSelectedDate == old(userSelectedDate)
        && display == old(display) && toasts == old(toasts)
    {
      if intervalId.Some? {
        return;
      }
      if userSelectedDate.None? {
        return;
      }
      startDisabled := true;
      pickerDisabled := true;
      var id := SetInterval();
      intervalId := Some(id);
    }

    /** `timer.stop`: cancels the interval, unlocks both controls, forgets the date and shows zeros.
        On a stopped timer it changes nothing, so stopping twice is stopping once. */
    method Stop()
      requires Valid()
      modifies this
      ensures Valid() && IsStopped()
      ensures nextIntervalId == old(nextIntervalId) && toasts == old(toasts)
      ensures old(IsStopped()) ==> unchanged(this)
    {
      ClearInterval(intervalId);
      startDisabled := false;
      pickerDisabled := false;
      userSelectedDate := None;
      intervalId := None;
      ShowZeroTime();
    }

    /** `timer.tick` at time `now`: stops once no time is left; otherwise shows the time left. */
    method Tick(now: int)
      requires Valid()
      modifies this
      ensures Valid()
      ensures TimeLeft(old(userSelectedDate), now) <= 0 ==>
        IsStopped() && nextIntervalId == old(nextIntervalId) && toasts == old(toasts)
      ensures TimeLeft(old(userSelectedDate), now) > 0 ==>
        && display == SlotTexts(ConvertMs(TimeLeft(old(userSelectedDate), now)))
        && intervalId == old(intervalId) && userSelectedDate == old(userSelectedDate)
        && startDisabled == old(startDisabled) && pickerDisabled == old(pickerDisabled)
        && liveIntervals == old(liveIntervals) && nextIntervalId == old(nextIntervalId)
        && toasts == old(toasts)
    {
      var diffMs := TimeLeft(userSelectedDate, now);
      if diffMs <= 0 {
        Stop();
        return;
      }
      var timeObj := ConvertMs(diffMs);
      ShowTime(timeObj);
    }

    /** The picker's `onClose` at time `now`: records the first selected date, then, if there is one,
        enables start exactly when it is in the future and raises one error toast when it is not.
        A disabled picker input cannot be opened, so it only closes while enabled. */
    method OnClose(now: int, selectedDates: seq<int>)
      requires Valid() && !pickerDisabled
      modifies this
      ensures Valid()
      ensures userSelectedDate == if |selectedDates| > 0 then Some(selectedDates[0]) else None
      ensures |selectedDates| > 0 ==>
        && startDisabled == !IsFutureDate(now, selectedDates[0])
        && toasts == old(toasts) + if IsFutureDate(now, selectedDates[0]) then [] else [PastDateToast]
      ensures |selectedDates| == 0 ==> startDisabled == old(startDisabled) && toasts == old(toasts)
      ensures intervalId == old(intervalId) && pickerDisabled == old(pickerDisabled)
      ensures display == old(display) && liveIntervals == old(liveIntervals)
      ensures nextIntervalId == old(nextIntervalId)
    {
      userSelectedDate := if |selectedDates| > 0 then Some(selectedDates[0]) else None;
      if userSelectedDate.Some? {
        var isValidDate := IsFutureDate(now, userSelectedDate.value);
        HandleDateInputChange(isValidDate);
      }
    }

    /** `handleDateInputChange`: enables start for a valid date; otherwise disables it and shows the error toast. */
    method HandleDateInputChange(isValidDate: bool)
      modifies this`startDisabled, this`toasts
      ensures startDisabled == !isValidDate
      ensures toasts == old(toasts) + if isValidDate then [] else [PastDateToast]
    {
      if !isValidDate {
        startDisabled := true;
        ShowMessage();
        return;
      }
      startDisabled := false;
    }

    /** `showMessage`: raises the past-date error toast. */
    method ShowMessage()
      modifies this`toasts
      ensures toasts == old(toasts) + [PastDateToast]
    {
      toasts := toasts + [PastDateToast];
    }

    /** `updateTimerMarkup(refs.timer, formatTimeData(t))`: the slots show `t`. */
    method ShowTime(t: TimeData)
      requires Valid()
      modifies this`display
      ensures Valid() && display == SlotTexts(t)
    {
      var values := FormatTimeData(Fields(t));
      MarkupShowsSlotTexts(t, values);
      UpdateTimerMarkup(values);
    }

    /** `updateTimerMarkup(refs.timer, formatTimeData({ days: 0, hours: 0, minutes: 0, seconds: 0 }))`. */
    method ShowZeroTime()
      requires Valid()
      modifies this`display
      ensures Valid() && display == ["00", "00", "00", "00"]
    {
      ShowTime(TimeData(0, 0, 0, 0));
      ZeroSlotTexts();
    }

    /** `updateTimerMarkup(refs.timer, values)`: each slot `xEl` gets the value under `x`. */
    method UpdateTimerMarkup(values: map<string, string>)
      requires Valid()
      requires forall i :: 0 <= i < |SlotKeys| ==> ValueKey(SlotKeys[i]) in values
      modifies this`display
      ensures Valid()
      ensures forall i :: 0 <= i < |SlotKeys| ==> display[i] == values[ValueKey(SlotKeys[i])]
    {
      var i := 0;
      while i < |SlotKeys|
        invariant 0 <= i <= |SlotKeys| && |display| == |SlotKeys|
        invariant forall j :: 0 <= j < i ==> display[j] == values[ValueKey(SlotKeys[j])]
      {
        var elemKey := SlotKeys[i];
        var key := ValueKey(elemKey);
        display := display[i := values[key]];
        i := i + 1;
      }
    }
  }
}
