# Countdown timer and promise snackbar, modelled in Dafny

The repository is a two-page browser exercise.

The **countdown page** (`src/js/1-timer.js`) has a date picker and a start button:
- When the picker closes, the chosen instant is recorded.
- Start is enabled only if that instant lies more than a second in the future. Otherwise an error toast is raised.
- Start locks both controls and ticks once a second. Each tick writes the remaining days, hours, minutes and seconds, zero-padded, into four slots.
- Once no time is left, the timer stops. It unlocks the controls, forgets the date and shows "00" everywhere.

The **snackbar page** (`src/js/2-snackbar.js`) has a form with a `delay` and a `state` field:
- An input event on the `delay` or `state` field stores its value, re-validates the form and enables or disables submit; an input event from any other control disables submit.
- A valid submit schedules one deferred outcome, which fulfils or rejects after `delay` milliseconds, and resets the form.
- The outcome is reported by a toast whose text, class and timeout follow from the outcome and the delay.

Modules:
- `Options`: the `Option` type.
- `Decimal`: JavaScript's `String(n)` for integral numbers and the reading back of digit strings.
- `Coercion`: `trim`, `String`, `Number` and `Boolean` on the values the form holds.
- `Countdown`:
  - the pure helpers of `1-timer.js`;
  - a `Timer` class for its mutable state. This is the `timer` object's interval id, the module variable `userSelectedDate`, the button, picker and slot elements, the toasts shown, and the browser's interval table.
- `CountdownScenarios`: runs of the timer proved from the class contracts.
- `Snackbar`:
  - the pure logic of `2-snackbar.js`;
  - a `Form` class for `formData` and the submit button's flag;
  - worked scenarios.

Time is passed in as `now`, in whole milliseconds. The deferred promise is modelled by the request it captures (`Request`) and the way it settles (`Settle`). A toast is the record of what is passed to `iziToast.show`.

Two consequences of the code worth knowing:
- For a date 1.5 s ahead, the first tick, one second after start, shows "00" in every slot: `convertMs` rounds the remaining 500 ms down (`CountdownScenarios.TickInLastSecond`).
- `stop()` on an idle timer that holds a chosen date is not a no-op: it clears the date and resets the slots. `Countdown.Timer.Stop` changes nothing only on a timer that is already stopped.

The `Timer` invariant (`Valid`) holds the page's state machine: the picker is locked exactly while an interval runs, and a running timer holds a date and a locked start button. The picker's close handler only runs while the picker is enabled.

## Model

| member | source | states |
|---|---|---|
| Decimal.NaturalString | src/js/2-snackbar.js:96-97 | the `${delay}` text of a natural: non-empty, digits only, one digit exactly below 10, no leading zero |
| Decimal.NaturalStringRoundTrip | src/js/2-snackbar.js:96-97 | reading back the digits of `String(n)` gives `n` |
| Decimal.DecimalStringValue | src/js/1-timer.js:162 | `String(n)` of an integer is all digits denoting `n`, or for a negative `n` a '-' followed by digits denoting `-n` |
| Decimal.NaturalStringInjective | src/js/2-snackbar.js:96-97 | two delays with the same text are the same delay |
| Decimal.LeadingZeroValue | src/js/1-timer.js:162 | a padding '0' does not change the value a digit string denotes |
| Decimal.DigitsValueZero | src/js/2-snackbar.js:55-57 | a digit string denotes 0 exactly when all its digits are '0' (why "-0" is an acceptable delay) |
| Coercion.TrimStart | src/js/2-snackbar.js:52 | the suffix left after removing exactly the leading white space |
| Coercion.TrimEnd | src/js/2-snackbar.js:52 | the prefix left after removing exactly the trailing white space |
| Coercion.TrimEmpty | src/js/2-snackbar.js:52-53 | `Trim` (`trim()`) gives "" if and only if the text is all white space |
| Coercion.TrimNoWhitespace | src/js/2-snackbar.js:52 | text without white space trims to itself |
| Coercion.NumberTextNotBlank | src/js/2-snackbar.js:52-53 | `ToStr` (`String(number)`) never trims to "", so a numeric delay always passes the blank check |
| Coercion.NumberOfDecimalString | src/js/2-snackbar.js:52-55 | `Number(String(n))` is `n` for every integer `n`: `StringToNumber` undoes `DecimalString` |
| Coercion.NonNegativeNumberIff | src/js/2-snackbar.js:55-57 | `StringToNumber`: a non-blank delay text converts to a finite number ≥ 0 if and only if its trimmed text is a non-negative numeral |
| Countdown.JsRem | src/js/1-timer.js:153-157 | JavaScript's `%` by a positive divisor: smaller than the divisor in magnitude, zero or of the dividend's sign, and differing from the dividend by a multiple of the divisor |
| Countdown.ConvertMs | src/js/1-timer.js:144-159 | for ms ≥ 0: every field in range (hours < 24, minutes and seconds < 60, none negative), and the breakdown totals ms up to a sub-second remainder |
| Countdown.ConvertMsInverse | src/js/1-timer.js:144-159 | an in-range breakdown plus under a second converts back to the same breakdown, so the breakdown is unique |
| Countdown.PadStart | src/js/1-timer.js:162 | `padStart`: length max(len, width), the original text as the suffix, fill characters before it |
| Countdown.AddLeadingZero | src/js/1-timer.js:161-163 | at least two characters; '0' and the digit for 0..9; the plain decimal text for 10 and above and for negatives |
| Countdown.AddLeadingZeroRoundTrip | src/js/1-timer.js:161-163 | a padded field still reads back as its value |
| Countdown.FormatTimeData | src/js/1-timer.js:165-173 | exactly the same keys, each value replaced by `addLeadingZero` of it |
| Countdown.ValueKeyDropsSuffix | src/js/1-timer.js:205 | `ValueKey` (`slice(0, -2)`) takes the key `x + "El"` to `x` |
| Countdown.SlotValueKeys | src/js/1-timer.js:13-16 | each slot of `refs.timer` is fed from the field it is named after |
| Countdown.SlotTexts | src/js/1-timer.js:130 | one text per slot of `refs.timer` |
| Countdown.ZeroSlotTexts | src/js/1-timer.js:114-117 | the zero breakdown shows "00" in all four slots |
| Countdown.UnderASecondShowsZero | src/js/1-timer.js:129-130 | with under a second left, every slot shows "00" |
| Countdown.FieldsLookup | src/js/1-timer.js:158 | `Fields`: the object `convertMs` returns has exactly the keys days, hours, minutes, seconds, each holding its field |
| Countdown.MarkupShowsSlotTexts | src/js/1-timer.js:201-209 | `updateTimerMarkup(refs.timer, formatTimeData(t))` writes into every slot the padded field it is named after |
| Countdown.FutureMarginIsStrict | src/js/1-timer.js:139-142 | `IsFutureDate`: exactly one second ahead is rejected, 1001 ms ahead is accepted |
| Countdown.AcceptedDateHasTimeLeft | src/js/1-timer.js:122-124 | `TimeLeft` (`userSelectedDate - currentTime`) of a date `IsFutureDate` accepted is still positive at any tick up to a second later |
| Countdown.Timer.constructor | src/js/1-timer.js:20 | the loaded page: no date, no interval, picker enabled, button and slots as the markup has them; the invariant holds |
| Countdown.Timer.SetInterval | src/js/1-timer.js:102-104 | while every live id is below the counter: returns an id of at least 1, so it is truthy, that no live interval holds; the counter advances and the id joins the live set |
| Countdown.Timer.ClearInterval | src/js/1-timer.js:108 | cancels the given interval; `clearInterval(null)` does nothing |
| Countdown.Timer.Start | src/js/1-timer.js:95-105 | keeps the invariant (picker locked exactly while running, a running timer holds a date); no change at all while running or without a date; otherwise both controls locked and exactly one new live interval, the one it holds |
| Countdown.Timer.Stop | src/js/1-timer.js:107-118 | from any state: no interval, no date, both controls enabled, all slots "00", no live interval; on a stopped timer nothing changes |
| Countdown.Timer.Tick | src/js/1-timer.js:120-131 | with no time left it ends exactly as `stop` does; otherwise the slots show `convertMs` of the time left, padded, and nothing else changes |
| Countdown.Timer.OnClose | src/js/1-timer.js:75-86 | only while the picker is enabled; the first selection is recorded even when it is in the past; start is enabled if and only if the date is in the future; otherwise exactly one error toast; an empty selection clears the date and leaves the button and toasts alone |
| Countdown.Timer.HandleDateInputChange | src/js/1-timer.js:180-187 | start is disabled exactly for an invalid date, and only then is the error toast raised |
| Countdown.Timer.ShowMessage | src/js/1-timer.js:189-199 | appends the "Please choose a date in the future" error toast (class custom-error-toast, 3000 ms) |
| Countdown.Timer.ShowTime | src/js/1-timer.js:130 | the slots show the padded fields of the breakdown |
| Countdown.Timer.ShowZeroTime | src/js/1-timer.js:114-117 | the slots show "00" |
| Countdown.Timer.UpdateTimerMarkup | src/js/1-timer.js:201-209 | each slot `xEl` gets the value under `x` |
| CountdownScenarios.StartTwice | src/js/1-timer.js:95-105 | two starts with a date chosen leave exactly one live interval |
| CountdownScenarios.StopTwice | src/js/1-timer.js:107-118 | stopping twice ends with every field as the first stop left it |
| CountdownScenarios.StartOneAndAHalfSecondsAhead | src/js/1-timer.js:75-105 | a date 1.5 s ahead is accepted, and start then runs with both controls locked |
| CountdownScenarios.TickInLastSecond | src/js/1-timer.js:120-131 | a tick with under a second left keeps the same interval, date and locked controls and shows all "00" |
| CountdownScenarios.TickAtOrAfterDate | src/js/1-timer.js:120-127 | a tick at or after the date stops the timer |
| CountdownScenarios.CountdownFromOneAndAHalfSeconds | src/js/1-timer.js:75-131 | select 1.5 s ahead, start, tick at +1 s and +2 s: the page ends stopped |
| CountdownScenarios.StartAfterRejectedDate | src/js/1-timer.js:75-142 | a date half a second ahead is rejected with one toast, yet `timer.start` still runs towards it, and a tick 499 ms later keeps running and shows all "00": acceptance needs more than a second, a tick only needs time left |
| CountdownScenarios.SelectHalfSecondAhead | src/js/1-timer.js:75-86 | a date half a second ahead is recorded, start is disabled and one error toast is raised |
| Snackbar.Validate | src/js/2-snackbar.js:49-61 | false with nothing changed for a null or blank delay; otherwise the delay is stored as `Number(delay)`, and the result is true if and only if that number is finite and ≥ 0 and `state` is truthy; `state` is never touched |
| Snackbar.AcceptableDelayIff | src/js/2-snackbar.js:52-57 | `ToNumber` and `Truthy` as the handler uses them: the closed description of an acceptable delay matches the trim / `Number` / `isFinite` / `>= 0` steps |
| Snackbar.ValidateIdempotent | src/js/2-snackbar.js:55-56 | validating again gives the same verdict and the same stored delay |
| Snackbar.InheritedNameSlipsThrough | src/js/2-snackbar.js:17 | the guard as written lets the inherited name "toString" through, leaving submit enabled on a valid form |
| Snackbar.SetField | src/js/2-snackbar.js:22 | `formData[name] = value`: the named field holds the raw text, the other field is kept |
| Snackbar.FulfilledLabelIsExact | src/js/2-snackbar.js:89-91 | `CheckFulfilledState` is strict equality: "Fulfilled", " fulfilled", `null` and numbers do not count |
| Snackbar.SettleSpec | src/js/2-snackbar.js:65-91 | success if and only if the state is exactly "fulfilled"; both outcomes carry the request's delay |
| Snackbar.Max | src/js/2-snackbar.js:104 | `Math.max`: at least both arguments and equal to one of them |
| Snackbar.ShowMessage | src/js/2-snackbar.js:93-106 | timeout max(delay, 1000); class custom-success-toast or custom-error-toast; text "✅ Fulfilled promise in {delay}ms" or "❌ Rejected promise in {delay}ms" |
| Snackbar.MessageReportsDelay | src/js/2-snackbar.js:95-97 | the toast text reads back as exactly the delay it was shown for |
| Snackbar.NotifyReportsOutcome | src/js/2-snackbar.js:81-87 | `Notify`: the toast's class matches the outcome, its text reads back as the outcome's delay, and it stays at least a second and at least that delay |
| Snackbar.RequestToast | src/js/2-snackbar.js:65-106 | a scheduled request ends in the toast for its label, shown for max(delay, 1000) ms |
| Snackbar.FulfilledScenarioValidates | src/js/2-snackbar.js:49-61 | delay "2000" with state "fulfilled" validates and stores the number 2000 |
| Snackbar.FulfilledScenarioToast | src/js/2-snackbar.js:65-106 | that request ends in the success toast "✅ Fulfilled promise in 2000ms", shown for 2000 ms |
| Snackbar.RejectedScenarioValidates | src/js/2-snackbar.js:49-61 | delay "500" with state "rejected" validates |
| Snackbar.RejectedScenarioToast | src/js/2-snackbar.js:65-106 | that request ends in the error toast "❌ Rejected promise in 500ms", shown for 1000 ms |
| Snackbar.UnsetStateNeverValid | src/js/2-snackbar.js:58-60 | `Truthy`: with the state `null` or "", the form never validates, whatever the delay |
| Snackbar.NegativeDelayScenario | src/js/2-snackbar.js:55-57 | delay "-5" never validates, whatever the state |
| Snackbar.Form.constructor | src/js/2-snackbar.js:7-8 | `formData` starts as a copy of `initialFormData`, and the button as the markup has it |
| Snackbar.Form.IsFormValid | src/js/2-snackbar.js:49-61 | returns `Validate` of the old form data and leaves the form data it computes |
| Snackbar.Form.HandleFormElInput | src/js/2-snackbar.js:14-26 | a non-field name disables submit and changes nothing else; a field stores the raw value in that field only, then submit is disabled exactly when the form does not validate; submit is enabled only on a valid form |
| Snackbar.Form.HandleFormElSubmit | src/js/2-snackbar.js:28-40 | invalid: no request, submit disabled; valid: exactly one request with the state and numeric delay read before the reset, then the form is reset |
| Snackbar.Form.ResetForm | src/js/2-snackbar.js:43-47 | `formData` is the initial `{ delay: null, state: null }` and submit is disabled |

## Left out

- The flatpickr picker and its locale and options (`1-timer.js:22-74`, `89`) are left out. This is third-party UI; the model takes the selected dates `onClose` receives as a parameter.
- `iziToast` rendering is left out. A toast is recorded by its title, text, class and timeout; its position, colour and icon are not modelled.
- DOM plumbing is left out: `querySelector`, `addEventListener`, `preventDefault`, `toggleDisabled`'s default arguments and `form.reset()`. The model keeps the elements' state (`disabled` flags and slot texts) as fields. The start button's and submit button's initial `disabled` flags and the slots' initial texts come from the markup and are constructor parameters; the picker starts enabled.
- Real time and asynchrony are left out. `Date.now()` is a parameter. The repeating interval is the `Tick` method, and the promise and its `setTimeout` are the `Request` captured at submit and `Settle`.
- `Countdown.Timer.Tick`: on a timer with no date it treats the missing date as `null`, that is 0. After an empty selection JavaScript holds `undefined`, and `undefined - now` is NaN, which `diffMs <= 0` does not catch. The interval only calls `tick` while the timer runs, and the invariant guarantees that a running timer holds a date.
- `Coercion.StringToNumber` models `Number` only for an optional sign followed by decimal digits, surrounded by white space; fractions, exponents, hexadecimal and `Infinity` give NaN here. A digit string is read exactly as an unbounded integer: there is no rounding to the nearest double ("9007199254740993" stays itself) and no overflow to `Infinity` for numerals of more than about 309 digits.
- `Snackbar.Validate` therefore rejects a fractional delay such as "1.5", which the source accepts, and accepts an over-long numeral, which the source turns into `Infinity` and rejects through `Number.isFinite`.
- `Decimal.DecimalString` does not model `String`'s switch to exponent notation at 10^21 and above.
- `Countdown.ConvertMs` states its bounds only for durations that are not negative. Negative durations are computed with JavaScript's remainder, but the timer never converts one.
- `Countdown.Timer.UpdateTimerMarkup` requires every slot's key to be present in the values. The source would write `undefined` for a missing key, but its only caller always passes all four.

## Findings

| source | as written | input that shows it | evidently intended | confidence | as-written member | corrected member |
|---|---|---|---|---|---|---|
| src/js/2-snackbar.js:17 | `name in formData` also finds names inherited from `Object.prototype` | an input named "toString" on a form holding delay "2000" and state "fulfilled": the guard passes, the assignment overwrites `formData.toString`, and submit stays enabled | only the own fields `delay` and `state` pass; any other name disables submit | low (needs a form control with such a name); not executed | Snackbar.InheritedNameSlipsThrough | Snackbar.Form.HandleFormElInput |
