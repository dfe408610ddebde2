/**
 * The delay form: two fields, `delay` and `state`, validated on every input
 * event; a valid submit schedules one deferred outcome that fulfils or
 * rejects after `delay` milliseconds and resets the form. The deferred
 * promise is modelled by the request it captures, and its toast by the
 * class, text and timeout passed to `iziToast.show`.
 */
module Snackbar {
  import opened Options
  import opened Decimal
  import opened Coercion

  /** The module variable `formData`: `{ delay, state }`. */
  datatype FormData = FormData(delay: Value, state: Value)

  /** `initialFormData`; being a value, no later change of `formData` can reach it. */
  const InitialFormData := FormData(Null, Null)

  /** What `isFormValid` returns, and the form data it leaves behind. */
  datatype Validation = Validation(valid: bool, formData: FormData)

  /** A delay `isFormValid` accepts, described without running `Number`: a finite
      number at least zero, or text whose trimmed form is a non-negative numeral. */
  predicate AcceptableDelay(v: Value) {
    match v
    case Null => false
    case Str(s) => NonNegativeNumeral(Trim(s))
    case Num(Finite(n)) => n >= 0
    case Num(NaN) => false
  }

  /**
   * `isFormValid` on `fd`. A missing or blank delay fails and changes nothing;
   * otherwise the delay is replaced by `Number(delay)`, and the verdict is that
   * this number is finite and not negative and `state` is truthy.
   */
  function Validate(fd: FormData): (r: Validation)
    ensures r.valid <==> AcceptableDelay(fd.delay) && Truthy(fd.state)
    ensures r.formData.state == fd.state
    ensures fd.delay.Null? || Trim(ToStr(fd.delay)) == [] ==> r.formData == fd
    ensures fd.delay.Str? && Trim(fd.delay.text) != [] ==> r.formData.delay == Num(StringToNumber(fd.delay.text))
    ensures fd.delay.Num? ==> r.formData == fd
    ensures r.valid ==> r.formData.delay.Num? && r.formData.delay.number.Finite? && r.formData.delay.number.value >= 0
  {
    if fd.delay.Null? then Validation(false, fd)
    else if Trim(ToStr(fd.delay)) == [] then
      AcceptableDelayIff(fd.delay);
      Validation(false, fd)
    else
      var delay := ToNumber(fd.delay);
      var isDelayValid := delay.Finite? && delay.value >= 0;
      AcceptableDelayIff(fd.delay);
      Validation(isDelayValid && Truthy(fd.state), fd.(delay := Num(delay)))
  }

  /** A present delay is acceptable exactly when it does not trim to nothing and `Number` of it
      is finite and at least zero. */
  lemma AcceptableDelayIff(v: Value)
    requires !v.Null?
    ensures AcceptableDelay(v) <==> Trim(ToStr(v)) != [] && ToNumber(v).Finite? && ToNumber(v).value >= 0
  {
    match v
    case Str(s) =>
      if Trim(s) != [] {
        NonNegativeNumberIff(s);
      }
    case Num(n) =>
      NumberTextNotBlank(n);
  }

  /** Validating twice gives the same verdict and the same stored delay as validating once. */
  lemma ValidateIdempotent(fd: FormData)
    ensures Validate(Validate(fd).formData) == Validate(fd)
  {
    var once := Validate(fd).formData;
    if once.delay.Num? {
      NumberTextNotBlank(once.delay.number);
    }
  }

  /** The form fields `handleFormElInput` accepts: the own keys of `formData`. */
  predicate IsFormField(name: string) {
    name == "delay" || name == "state"
  }

  /** The names a plain object inherits from `Object.prototype`. */
  const ObjectPrototypeNames: set<string> := {
    "constructor", "hasOwnProperty", "isPrototypeOf", "propertyIsEnumerable", "toLocaleString",
    "toString", "valueOf", "__proto__", "__defineGetter__", "__defineSetter__",
    "__lookupGetter__", "__lookupSetter__"
  }

  /** The guard as written, `name in formData`: the `in` operator also finds inherited names. */
  predicate InFormDataAsWritten(name: string) {
    IsFormField(name) || name in ObjectPrototypeNames
  }

  /** The submit button's `disabled` flag after an input event, with the guard as written:
      an inherited name passes the guard, and `isFormValid` then judges the unchanged
      `delay` and `state`. */
  function SubmitDisabledAfterInputAsWritten(fd: FormData, name: string, value: string): bool {
    if !InFormDataAsWritten(name) then true
    else if IsFormField(name) then !Validate(SetField(fd, name, value)).valid
    else !Validate(fd).valid
  }

  /** An input named "toString" passes the guard as written although it is not a form field, and
      on a valid form it leaves submit enabled where `HandleFormElInput` disables it. */
  lemma InheritedNameSlipsThrough()
    ensures InFormDataAsWritten("toString") && !IsFormField("toString")
    ensures Validate(FormData(Str("2000"), Str("fulfilled"))).valid
    ensures !SubmitDisabledAfterInputAsWritten(FormData(Str("2000"), Str("fulfilled")), "toString", "x")
  {
    assert "2000" == ['2', '0', '0', '0'];
    assert AllDigits("2000");
    TrimNoWhitespace("2000");
  }

  /** `formData[name]` for a form field. */
  function FieldValue(fd: FormData, name: string): (v: Value)
    requires IsFormField(name)
  {
    if name == "delay" then fd.delay else fd.state
  }

  /** `formData[name] = value` for a form field: that field now holds the raw text, the other is kept. */
  function SetField(fd: FormData, name: string, value: string): (r: FormData)
    requires IsFormField(name)
    ensures FieldValue(r, name) == Str(value)
    ensures forall other :: IsFormField(other) && other != name ==> FieldValue(r, other) == FieldValue(fd, other)
  {
    if name == "delay" then fd.(delay := Str(value)) else fd.(state := Str(value))
  }

  /** The argument of `createPromise`: the outcome label and the numeric delay read before the reset. */
  datatype Request = Request(state: Value, delay: nat)

  /** How a deferred request settles: `resolve(delay)` or `reject(delay)`. */
  datatype Outcome = Fulfilled(delay: nat) | Rejected(delay: nat)

  /** `checkFulfilledState`: strict equality with the label "fulfilled". */
  predicate CheckFulfilledState(state: Value) {
    state == Str("fulfilled")
  }

  /** The timer callback inside `createPromise`: fulfils for "fulfilled", rejects otherwise, with the request's delay. */
  function Settle(request: Request): (o: Outcome) {
    if CheckFulfilledState(request.state) then Fulfilled(request.delay) else Rejected(request.delay)
  }

  /** The check is strict equality: no other capitalisation, no surrounding white space and no
      non-text value counts as "fulfilled". */
  lemma FulfilledLabelIsExact()
    ensures CheckFulfilledState(Str("fulfilled"))
    ensures !CheckFulfilledState(Str("Fulfilled")) && !CheckFulfilledState(Str(" fulfilled"))
    ensures !CheckFulfilledState(Null) && !CheckFulfilledState(Num(Finite(1)))
  {
    assert "Fulfilled"[0] != "fulfilled"[0];
  }

  /** A request succeeds exactly for the label "fulfilled", and either way its outcome carries its delay. */
  lemma SettleSpec(request: Request)
    ensures Settle(request).Fulfilled? <==> request.state == Str("fulfilled")
    ensures Settle(request).delay == request.delay
  {
  }

  /** The toast passed to `iziToast.show`: class, message and timeout. */
  datatype Notification = Notification(cssClass: string, message: string, timeout: int)

  const FulfilledPrefix := "\U{2705} Fulfilled promise in "
  const RejectedPrefix := "\U{274C} Rejected promise in "

  /** `Math.max(a, b)`. */
  function Max(a: int, b: int): (m: int)
    ensures m >= a && m >= b && (m == a || m == b)
  {
    if a >= b then a else b
  }

  /** `showMessage(delay, isFulfilled)`: the toast's class, its text and how long it stays. */
  function ShowMessage(delay: nat, isFulfilled: bool): (n: Notification)
    ensures n.timeout >= 1000 && n.timeout >= delay && (n.timeout == delay || n.timeout == 1000)
    ensures n.cssClass == if isFulfilled then "custom-success-toast" else "custom-error-toast"
    ensures n.message == (if isFulfilled then FulfilledPrefix else RejectedPrefix) + NaturalString(delay) + "ms"
  {
    var toastClass := if isFulfilled then "success" else "error";
    var toastMessage := (if isFulfilled then FulfilledPrefix else RejectedPrefix) + DecimalString(delay) + "ms";
    Notification("custom-" + toastClass + "-toast", toastMessage, Max(delay, 1000))
  }

  /** `onFulfilled` and `onRejected`: the toast for a settled request. */
  function Notify(o: Outcome): (n: Notification) {
    match o
    case Fulfilled(delay) => ShowMessage(delay, true)
    case Rejected(delay) => ShowMessage(delay, false)
  }

  /** The delay a toast's text reports: the digits between the prefix and "ms". */
  function ReportedDelay(message: string, prefix: string): (delay: Option<nat>) {
    if |message| >= |prefix| + 2 && message[..|prefix|] == prefix && message[|message| - 2..] == "ms"
       && AllDigits(message[|prefix|..|message| - 2])
    then Some(DigitsValue(message[|prefix|..|message| - 2]))
    else None
  }

  /** The text of a toast reports exactly the delay it was shown for. */
  lemma MessageReportsDelay(delay: nat, isFulfilled: bool)
    ensures var prefix := if isFulfilled then FulfilledPrefix else RejectedPrefix;
      ReportedDelay(ShowMessage(delay, isFulfilled).message, prefix) == Some(delay)
  {
    var prefix := if isFulfilled then FulfilledPrefix else RejectedPrefix;
    var digits := NaturalString(delay);
    var m := prefix + digits + "ms";
    assert m[..|prefix|] == prefix;
    assert m[|prefix|..|m| - 2] == digits;
    assert m[|m| - 2..] == "ms";
    NaturalStringRoundTrip(delay);
  }

  /** `onFulfilled` and `onRejected` report the outcome: a success or error toast whose text
      reads back as the outcome's delay and which stays at least a second and at least that delay. */
  lemma NotifyReportsOutcome(o: Outcome)
    ensures Notify(o).cssClass == if o.Fulfilled? then "custom-success-toast" else "custom-error-toast"
    ensures ReportedDelay(Notify(o).message, if o.Fulfilled? then FulfilledPrefix else RejectedPrefix) == Some(o.delay)
    ensures Notify(o).timeout >= 1000 && Notify(o).timeout >= o.delay
  {
    MessageReportsDelay(o.delay, o.Fulfilled?);
  }

  /** The whole deferred path: a captured request ends in the toast for its label, shown at least a second. */
  lemma RequestToast(request: Request)
    ensures var n := Notify(Settle(request));
      && n.cssClass == (if request.state == Str("fulfilled") then "custom-success-toast" else "custom-error-toast")
      && n.timeout == Max(request.delay, 1000)
  {
  }

  /** A form whose state is unset, `null` or the empty text, never validates, whatever the delay. */
  lemma UnsetStateNeverValid(delay: Value)
    ensures !Validate(FormData(delay, Null)).valid
    ensures !Validate(FormData(delay, Str(""))).valid
  {
  }

  /** Submitting "2000" and "fulfilled" validates and stores the numeric delay 2000. */
  lemma FulfilledScenarioValidates()
    ensures Validate(FormData(Str("2000"), Str("fulfilled"))) ==
      Validation(true, FormData(Num(Finite(2000)), Str("fulfilled")))
  {
    assert AllDigits("2000");
    TrimNoWhitespace("2000");
    assert DigitsValue("2000") == 2000 by {
      assert "2000"[..3] == "200" && "200"[..2] == "20" && "20"[..1] == "2";
    }
  }

  /** Its request fulfils after two seconds with the success toast "Fulfilled promise in 2000ms",
      which stays two seconds. */
  lemma FulfilledScenarioToast()
    ensures Notify(Settle(Request(Str("fulfilled"), 2000))) ==
      Notification("custom-success-toast", FulfilledPrefix + "2000ms", 2000)
  {
    assert NaturalString(2000) == "2000" by {
      assert NaturalString(20) == "2" + "0";
      assert NaturalString(200) == "20" + "0";
    }
  }

  /** Submitting "500" and "rejected" validates. */
  lemma RejectedScenarioValidates()
    ensures Validate(FormData(Str("500"), Str("rejected"))).valid
  {
    assert AllDigits("500");
    TrimNoWhitespace("500");
  }

  /** Its request rejects with the failure toast "Rejected promise in 500ms", which stays one
      second, the floor on the timeout. */
  lemma RejectedScenarioToast()
    ensures Notify(Settle(Request(Str("rejected"), 500))) ==
      Notification("custom-error-toast", RejectedPrefix + "500ms", 1000)
  {
    assert |"rejected"| != |"fulfilled"|;
    assert NaturalString(500) == "500" by {
      assert NaturalString(50) == "5" + "0";
    }
  }

  /** A delay of "-5" never validates, whatever the state. */
  lemma NegativeDelayScenario(state: Value)
    ensures !Validate(FormData(Str("-5"), state)).valid
  {
    TrimNoWhitespace("-5");
    assert "-5"[1..] == "5";
  }

  /**
   * The page's mutable state: the module variable `formData` and the submit
   * button's `disabled` flag.
   */
  class Form {
    var formData: FormData
    var submitDisabled: bool

    /** The submit button is enabled only while the stored form data validates. */
    ghost predicate SubmitOnlyWhenValid()
      reads this
    {
      !submitDisabled ==> Validate(formData).valid
    }

    /** The page as loaded: `formData` a copy of `initialFormData`, the button as the markup has it. */
    constructor (submitBtnDisabled: bool)
      ensures formData == InitialFormData && submitDisabled == submitBtnDisabled
      ensures SubmitOnlyWhenValid() <==> submitBtnDisabled
    {
      formData := InitialFormData;
      submitDisabled := submitBtnDisabled;
    }

    /** `isFormValid`: validates `formData`, storing the numeric delay as a side effect. */
    method IsFormValid() returns (valid: bool)
      modifies this`formData
      ensures Validation(valid, formData) == Validate(old(formData))
    {
      if formData.delay.Null? {
        return false;
      }
      var delayTrimmedStr := Trim(ToStr(formData.delay));
      if delayTrimmedStr == [] {
        return false;
      }
      var delay := ToNumber(formData.delay);
      formData := formData.(delay := Num(delay));
      var isDelayValid := delay.Finite? && delay.value >= 0;
      var isStateValid := Truthy(formData.state);
      return isDelayValid && isStateValid;
    }

    /** `handleFormElInput` for an input named `name` holding `value`. */
    method HandleFormElInput(name: string, value: string)
      modifies this
      ensures !IsFormField(name) ==> submitDisabled && formData == old(formData)
      ensures IsFormField(name) ==>
        var v := Validate(SetField(old(formData), name, value));
        formData == v.formData && submitDisabled == !v.valid
      ensures SubmitOnlyWhenValid()
    {
      if !IsFormField(name) {
        submitDisabled := true;
        return;
      }
      formData := SetField(formData, name, value);
      var isValidFormData := IsFormValid();
      submitDisabled := !isValidFormData;
      ValidateIdempotent(old(SetField(formData, name, value)));
    }

    /** `handleFormElSubmit`: an invalid form only disables submit; a valid one yields the
        request to schedule and resets the form. */
    method HandleFormElSubmit() returns (request: Option<Request>)
      modifies this
      ensures var v := Validate(old(formData));
        if v.valid then
          && request == Some(Request(v.formData.state, v.formData.delay.number.value))
          && formData == InitialFormData && submitDisabled
        else
          request == None && formData == v.formData && submitDisabled
      ensures SubmitOnlyWhenValid()
    {
      var isValidFormData := IsFormValid();
      if !isValidFormData {
        submitDisabled := true;
        return None;
      }
      var state, delay := formData.state, formData.delay;
      request := Some(Request(state, delay.number.value));
      ResetForm();
    }

    /** `resetForm`: back to a copy of `initialFormData`, submit disabled. */
    method ResetForm()
      modifies this
      ensures formData == InitialFormData && submitDisabled
      ensures SubmitOnlyWhenValid()
    {
      formData := InitialFormData;
      submitDisabled := true;
    }
  }
}
