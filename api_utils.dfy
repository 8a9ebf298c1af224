/**
 * The gateway's API helpers: the required-field check of a form object, the
 * error report of a failed API call, and the toasts of a list of validation
 * errors.
 */
module ApiUtils {
  import opened Common
  import opened JsText
  import opened ErrorUtils
  import opened FormValidation

  /** The error for one missing field. */
  function RequiredFieldError(fieldName: string): string {
    DisplayName(fieldName) + " es obligatorio"
  }

  /**
   * `validateRequiredFields` as a specification: one error per entry whose
   * value is missing, in entry order. The entries are the object's
   * `Object.entries`, in that order.
   */
  function RequiredFieldErrors(entries: seq<(string, JsValue)>): seq<string> {
    if entries == [] then []
    else
      var last := entries[|entries| - 1];
      RequiredFieldErrors(entries[..|entries| - 1]) + (if Missing(last.1) then [RequiredFieldError(last.0)] else [])
  }

  /** `validateRequiredFields`: walks the entries and pushes an error for each missing value. */
  method ValidateRequiredFields(entries: seq<(string, JsValue)>) returns (errors: seq<string>)
    ensures errors == RequiredFieldErrors(entries)
  {
    errors := [];
    var i := 0;
    while i < |entries|
      invariant 0 <= i <= |entries|
      invariant errors == RequiredFieldErrors(entries[..i])
    {
      assert entries[..i + 1][..i] == entries[..i];
      var (fieldName, value) := entries[i];
      if !Truthy(value) || (value.Str? && Trim(value.s) == "") {
        var displayName := UpperFirst(SpaceBeforeCapitals(fieldName));
        errors := errors + [displayName + " es obligatorio"];
      }
      i := i + 1;
    }
    assert entries[..i] == entries;
  }

  /** The number of entries with a missing value. */
  function MissingCount(entries: seq<(string, JsValue)>): nat {
    if entries == [] then 0
    else MissingCount(entries[..|entries| - 1]) + (if Missing(entries[|entries| - 1].1) then 1 else 0)
  }

  /**
   * There is one error per missing value, so the result is empty exactly when
   * every value is present, and each error names a missing entry.
   */
  lemma {:induction false} RequiredFieldErrorsCount(entries: seq<(string, JsValue)>)
    ensures |RequiredFieldErrors(entries)| == MissingCount(entries)
    ensures RequiredFieldErrors(entries) == [] <==> forall k :: 0 <= k < |entries| ==> !Missing(entries[k].1)
    ensures forall e :: e in RequiredFieldErrors(entries) ==>
      exists k :: 0 <= k < |entries| && Missing(entries[k].1) && e == RequiredFieldError(entries[k].0)
  {
    if entries != [] {
      var init := entries[..|entries| - 1];
      RequiredFieldErrorsCount(init);
      assert forall k :: 0 <= k < |init| ==> init[k] == entries[k];
      forall e | e in RequiredFieldErrors(entries)
        ensures exists k :: 0 <= k < |entries| && Missing(entries[k].1) && e == RequiredFieldError(entries[k].0)
      {
        if e !in RequiredFieldErrors(init) {
          assert Missing(entries[|entries| - 1].1) && e == RequiredFieldError(entries[|entries| - 1].0);
        }
      }
    }
  }

  /**
   * The required-field check agrees with the form validator given one
   * required rule, without other checks, per entry: both report the same
   * errors in the same order.
   */
  lemma {:induction false} RequiredFieldsAsFormRules(entries: seq<(string, JsValue)>)
    requires forall j, k :: 0 <= j < k < |entries| ==> entries[j].0 != entries[k].0
    ensures RequiredFieldErrors(entries) == FormErrors(EntriesData(entries), RequiredRules(entries))
  {
    if entries != [] {
      var init := entries[..|entries| - 1];
      var last := entries[|entries| - 1];
      RequiredFieldsAsFormRules(init);
      assert RequiredRules(entries)[..|entries| - 1] == RequiredRules(init);
      FormErrorsOnOtherKey(init, last);
      assert Lookup(EntriesData(entries), last.0) == last.1;
    }
  }

  /** The form data of a list of entries, a later entry winning. */
  function EntriesData(entries: seq<(string, JsValue)>): (d: FormData)
    ensures forall k :: 0 <= k < |entries| ==> entries[k].0 in d
  {
    if entries == [] then map[]
    else EntriesData(entries[..|entries| - 1])[entries[|entries| - 1].0 := entries[|entries| - 1].1]
  }

  /** One required rule per entry, with no other check. */
  function RequiredRules(entries: seq<(string, JsValue)>): (rules: seq<ValidationRule>)
    ensures |rules| == |entries|
    ensures forall k :: 0 <= k < |entries| ==> rules[k] == ValidationRule(entries[k].0, true, None, None, None, None)
  {
    if entries == [] then []
    else RequiredRules(entries[..|entries| - 1]) + [ValidationRule(entries[|entries| - 1].0, true, None, None, None, None)]
  }

  /** Adding an entry under a fresh key does not change the errors of the earlier rules. */
  lemma {:induction false} FormErrorsOnOtherKey(init: seq<(string, JsValue)>, last: (string, JsValue))
    requires forall k :: 0 <= k < |init| ==> init[k].0 != last.0
    ensures FormErrors(EntriesData(init)[last.0 := last.1], RequiredRules(init)) ==
            FormErrors(EntriesData(init), RequiredRules(init))
  {
    if init != [] {
      var shorter := init[..|init| - 1];
      assert forall k :: 0 <= k < |shorter| ==> shorter[k] == init[k];
      assert RequiredRules(init)[..|init| - 1] == RequiredRules(shorter);
      var rule := RequiredRules(init)[|init| - 1];
      assert Lookup(EntriesData(init)[last.0 := last.1], rule.field) == Lookup(EntriesData(init), rule.field);
      var d := EntriesData(init);
      var d2 := d[last.0 := last.1];
      ErrorsOfRequiredRules(d, d2, RequiredRules(shorter));
    }
  }

  /** Required-only rules give the same errors on two data maps that agree on their fields. */
  lemma {:induction false} ErrorsOfRequiredRules(d: FormData, d2: FormData, rules: seq<ValidationRule>)
    requires forall k :: 0 <= k < |rules| ==> Lookup(d, rules[k].field) == Lookup(d2, rules[k].field)
    ensures FormErrors(d, rules) == FormErrors(d2, rules)
  {
    if rules != [] {
      ErrorsOfRequiredRules(d, d2, rules[..|rules| - 1]);
    }
  }

  /** The response of a failed call as `handleApiError` reads it. */
  datatype CallResponse = CallResponse(status: int, message: Option<string>, detail: Option<string>)

  /** A failed API call: its response, whether a request was sent, its code and its message. */
  datatype CallError = CallError(
    response: Option<CallResponse>,
    requestSent: bool,
    code: Option<string>,
    message: Option<string>)

  /**
   * `handleApiError`: a response is reported through `showApiError` with the
   * body's message, else its detail; a request without response goes to the
   * network handler; anything else reports the error's own message.
   */
  function HandleApiError(error: CallError, context: Option<string>): (r: seq<string>)
    ensures |r| == 1 && r[0] != ""
    ensures error.response.None? && error.requestSent ==> r == [HandleNetworkError(error.code)]
  {
    ApiErrorSingleMessage(ApiError(None, error.message, None, None), context);
    match error.response
    case Some(resp) =>
      ApiErrorSingleMessage(ApiError(Some(resp.status), Or(resp.message, resp.detail), None, None), context);
      ShowApiError(ApiError(Some(resp.status), Or(resp.message, resp.detail), None, None), context)
    case None =>
      if error.requestSent then [HandleNetworkError(error.code)]
      else ShowApiError(ApiError(None, error.message, None, None), context)
  }

  /**
   * With a response, the reported text is the body's message, else its
   * detail, else `Error inesperado`, behind the context when there is one.
   */
  lemma ResponseMessage(error: CallError, context: Option<string>)
    requires error.response.Some?
    ensures var resp := error.response.value;
      var text := OrElse(resp.message, OrElse(resp.detail, Unexpected));
      HandleApiError(error, context) ==
        [if context.Some? && context.value != "" then context.value + ": " + text else text]
  {
  }

  /**
   * Without a response or a request, the error's own message, else
   * `Error inesperado`, is reported behind the context when there is one.
   */
  lemma UnsentRequestMessage(error: CallError, context: Option<string>)
    requires error.response.None? && !error.requestSent
    ensures var text := OrElse(error.message, Unexpected);
      HandleApiError(error, context) ==
        [if context.Some? && context.value != "" then context.value + ": " + text else text]
  {
  }

  /** `showValidationErrors`: each error shown behind the `Error de validación` context. */
  function ShowValidationErrors(errors: seq<string>): (r: seq<string>)
    ensures |r| == |errors|
    ensures forall i :: 0 <= i < |errors| ==>
      r[i] == "Error de validación: " + OrElse(Some(errors[i]), Unexpected)
  {
    if errors == [] then []
    else ShowApiError(ApiError(None, Some(errors[0]), None, None), Some("Error de validación")) +
         ShowValidationErrors(errors[1..])
  }
}
